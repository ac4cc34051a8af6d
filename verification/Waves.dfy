/** Waves of rescans: a recursive rescan creates a task for every subdirectory it knows, and only the
    last task of such a wave moves the modification-time baseline of the autoscan directory. */
module Waves {
  import opened Wrappers
  import opened Autoscan

  /** A running pass over one directory: the baseline it read and the highest time it has seen. */
  datatype Pass = Pass(baseline: int, highest: int)

  /** The autoscan directory; requests that have raised the task count but are not yet queued; queued
      tasks; the running pass; whether the worker is still in a pass over an object that has been
      replaced; and a history: tasks that will not lower the count, and the times reported in the current
      wave. */
  datatype State = State(dir: Settings, requested: nat, queued: nat, running: Option<Pass>, detached: bool,
                         lost: nat, reports: seq<int>)

  datatype Action =
    | Request               // rescanDirectory raises the count; a client or the running pass calls it
    | Enqueue               // ... and adds the task
    | Start                 // the worker runs a queued task, which reads the baseline
    | SeeFile(mtime: int)   // a file that is added or added again
    | Report                // setCurrentLMT at the end of the directory
    | End                   // the task returns, whether it has reported or not
    | Cancel                // a queued task is invalidated, and so never runs
    | Throw                 // an exception leaves the pass
    | Replace(chosen: Options, sameSlot: bool)  // new options: a copy replaces the directory
    | EndDetached           // the pass over a replaced object returns

  predicate Enabled(s: State, a: Action) {
    match a
    case Request => true
    case Enqueue => s.requested > 0
    case Start => s.queued > 0 && s.running.None? && !s.detached
    case SeeFile(_) => s.running.Some?
    case Report => s.running.Some?
    case End => s.running.Some?
    case Cancel => s.queued > 0
    case Throw => s.running.Some?
    case Replace(_, _) => true
    case EndDetached => s.detached
  }

  function Apply(s: State, a: Action): State
    requires Enabled(s, a)
  {
    match a
    case Request => s.(dir := s.dir.(taskCount := s.dir.taskCount + 1), requested := s.requested + 1)
    case Enqueue => s.(requested := s.requested - 1, queued := s.queued + 1)
    case Start =>
      s.(queued := s.queued - 1, running := Some(Pass(s.dir.previousLMT, s.dir.previousLMT)))
    case SeeFile(mtime) =>
      if s.running.value.highest < mtime then s.(running := Some(s.running.value.(highest := mtime))) else s
    case Report =>
      s.(dir := Reported(s.dir, s.running.value.highest), reports := s.reports + [s.running.value.highest])
    case End =>
      var r := s.(dir := PassEnded(s.dir), running := None);
      if r.dir.taskCount == 0 then r.(reports := []) else r
    case Cancel => s.(queued := s.queued - 1, lost := s.lost + 1)
    case Throw => s.(running := None, lost := s.lost + 1)
    case Replace(chosen, sameSlot) => Replaced(s, Updated(s.dir, chosen), sameSlot)
    case EndDetached => s.(detached := false)
  }

  /** The copy takes over the task count.  The running pass keeps the old object, whose count it will
      lower; queued tasks find the copy only in the slot whose number they carry. */
  function Replaced(s: State, copy: Settings, sameSlot: bool): State {
    var restarted := copy.previousLMT != s.dir.previousLMT || copy.currentLMT != s.dir.currentLMT;
    State(copy, if sameSlot then s.requested else 0, if sameSlot then s.queued else 0,
          None, s.detached || s.running.Some?,
          s.lost + (if s.running.Some? then 1 else 0) + (if sameSlot then 0 else s.requested + s.queued),
          if restarted then [] else s.reports)
  }

  /** The steps after which a task under way will not lower the directory's count. */
  predicate Loses(s: State, a: Action) {
    || a.Cancel? || a.Throw?
    || (a.Replace? && (s.running.Some? || (!a.sameSlot && s.requested + s.queued > 0)))
  }

  function Init(dir: Settings): State {
    State(dir, 0, 0, None, false, 0, [])
  }

  /** A directory that no rescan has touched since its times were set. */
  predicate Fresh(dir: Settings) {
    dir.taskCount == 0 && dir.previousLMT == dir.currentLMT
  }

  function Highest(base: int, reports: seq<int>): int {
    if reports == [] then base
    else
      var h := Highest(base, reports[..|reports| - 1]);
      if reports[|reports| - 1] > h then reports[|reports| - 1] else h
  }

  function Pending(s: State): nat {
    s.requested + s.queued + if s.running.Some? then 1 else 0
  }

  /** The count is that of the tasks under way, plus those that were lost; the running pass has read the
      baseline; and the current time is the highest one reported in the wave. */
  ghost predicate Inv(s: State) {
    && s.dir.taskCount == Pending(s) + s.lost
    && s.dir.currentLMT == Highest(s.dir.previousLMT, s.reports)
    && (s.running.Some? ==> s.running.value.baseline == s.dir.previousLMT <= s.running.value.highest)
    && (s.dir.taskCount == 0 ==> s.reports == [])
    && (s.detached ==> s.running.None?)
  }

  lemma {:induction false} HighestBounds(base: int, reports: seq<int>)
    ensures base <= Highest(base, reports)
    ensures forall i :: 0 <= i < |reports| ==> reports[i] <= Highest(base, reports)
    ensures Highest(base, reports) == base || Highest(base, reports) in reports
  {
    if reports != [] {
      HighestBounds(base, reports[..|reports| - 1]);
    }
  }

  lemma InvNext(s: State, a: Action)
    requires Inv(s) && Enabled(s, a)
    ensures Inv(Apply(s, a))
  {
    if a.Report? {
      assert (s.reports + [s.running.value.highest])[..|s.reports|] == s.reports;
    }
  }

  ghost predicate IsRun(states: seq<State>, actions: seq<Action>, dir: Settings) {
    && |states| == |actions| + 1 && states[0] == Init(dir)
    && forall i :: 0 <= i < |actions| ==>
         Enabled(states[i], actions[i]) && states[i + 1] == Apply(states[i], actions[i])
  }

  lemma {:induction false} RunKeepsInv(states: seq<State>, actions: seq<Action>, dir: Settings, i: nat)
    requires IsRun(states, actions, dir) && Fresh(dir) && i < |states|
    ensures Inv(states[i])
  {
    hide Enabled, Apply;
    if i > 0 {
      RunKeepsInv(states, actions, dir, i - 1);
      InvNext(states[i - 1], actions[i - 1]);
    }
  }

  /** A task is lost exactly by a cancelled or failed rescan, or by new options during a rescan or with a
      new slot while rescans wait. */
  lemma LostExactly(s: State, a: Action)
    requires Enabled(s, a)
    ensures Apply(s, a).lost >= s.lost
    ensures Apply(s, a).lost > s.lost <==> Loses(s, a)
  {
  }

  /** In runs without such steps the count is the number of tasks under way. */
  lemma CountIsPending(states: seq<State>, actions: seq<Action>, dir: Settings, i: nat)
    requires IsRun(states, actions, dir) && Fresh(dir) && i < |states|
    requires forall k :: 0 <= k < |actions| ==> !Loses(states[k], actions[k])
    ensures states[i].dir.taskCount == Pending(states[i])
  {
    hide Apply, Enabled;
    RunKeepsInv(states, actions, dir, i);
    NothingLost(states, actions, dir, i);
  }

  lemma {:induction false} NothingLost(states: seq<State>, actions: seq<Action>, dir: Settings, i: nat)
    requires IsRun(states, actions, dir) && i < |states|
    requires forall k :: 0 <= k < |actions| ==> !Loses(states[k], actions[k])
    ensures states[i].lost == 0
  {
    hide Apply, Enabled, Loses;
    if i > 0 {
      NothingLost(states, actions, dir, i - 1);
      LostExactly(states[i - 1], actions[i - 1]);
    }
  }

  /** The end of a wave: exactly when the last task under way returns and none was lost, the baseline
      becomes the highest time reported in the wave; it never falls, and no report of the wave is higher. */
  lemma WaveEnds(states: seq<State>, actions: seq<Action>, dir: Settings, i: nat)
    requires IsRun(states, actions, dir) && Fresh(dir) && i < |actions| && actions[i].End?
    ensures var s, r := states[i], states[i + 1];
      && (r.dir.taskCount == 0 <==> Pending(s) == 1 && s.lost == 0)
      && (r.dir.taskCount == 0 ==>
           && r.dir.previousLMT == Highest(s.dir.previousLMT, s.reports) == r.dir.currentLMT
           && s.dir.previousLMT <= r.dir.previousLMT
           && forall k :: 0 <= k < |s.reports| ==> s.reports[k] <= r.dir.previousLMT)
      && (r.dir.taskCount != 0 ==> r.dir.previousLMT == s.dir.previousLMT)
  {
    RunKeepsInv(states, actions, dir, i);
    HighestBounds(states[i].dir.previousLMT, states[i].reports);
  }

  /** The modification times that the running pass has met. */
  function Seen(actions: seq<Action>, i: nat): seq<int>
    requires i <= |actions|
  {
    if i == 0 || actions[i - 1].Start? then []
    else if actions[i - 1].SeeFile? then Seen(actions, i - 1) + [actions[i - 1].mtime]
    else Seen(actions, i - 1)
  }

  lemma {:induction false} HighestSnoc(base: int, times: seq<int>, t: int)
    ensures Highest(base, times + [t]) == if t > Highest(base, times) then t else Highest(base, times)
  {
    assert (times + [t])[..|times|] == times;
  }

  lemma {:induction false} HighestIsSeen(states: seq<State>, actions: seq<Action>, dir: Settings, i: nat)
    requires IsRun(states, actions, dir) && i < |states|
    ensures states[i].running.Some? ==>
              states[i].running.value.highest == Highest(states[i].running.value.baseline, Seen(actions, i))
  {
    hide Enabled, Apply, Highest, Seen;
    if i > 0 && states[i].running.Some? {
      StepSees(states[i - 1], actions[i - 1]);
      SeenStep(actions, i - 1);
      if actions[i - 1].Start? {
        HighestOfNone(states[i].running.value.baseline);
      } else {
        HighestIsSeen(states, actions, dir, i - 1);
        if actions[i - 1].SeeFile? {
          HighestSnoc(states[i - 1].running.value.baseline, Seen(actions, i - 1), actions[i - 1].mtime);
        }
      }
    }
  }

  lemma SeenStep(actions: seq<Action>, i: nat)
    requires i < |actions|
    ensures Seen(actions, i + 1) ==
      if actions[i].Start? then []
      else if actions[i].SeeFile? then Seen(actions, i) + [actions[i].mtime] else Seen(actions, i)
  {
  }

  lemma HighestOfNone(base: int)
    ensures Highest(base, []) == base
  {
  }

  lemma StepSees(s: State, a: Action)
    requires Enabled(s, a) && Apply(s, a).running.Some?
    ensures var p := Apply(s, a).running.value;
      if a.Start? then p.highest == p.baseline
      else
        && s.running.Some? && p.baseline == s.running.value.baseline
        && p.highest == if a.SeeFile? && a.mtime > s.running.value.highest then a.mtime else s.running.value.highest
  {
  }

  /** What a pass reports is the maximum of the baseline and the times that it has met; and the directory
      takes it over if it is higher than what it had. */
  lemma ReportIsMaximum(states: seq<State>, actions: seq<Action>, dir: Settings, i: nat)
    requires IsRun(states, actions, dir) && Fresh(dir) && i < |actions| && actions[i].Report?
    ensures states[i + 1].reports != [] && states[i + 1].reports[..|states[i].reports|] == states[i].reports
    ensures var h := states[i + 1].reports[|states[i + 1].reports| - 1];
      && |states[i + 1].reports| == |states[i].reports| + 1
      && states[i].dir.previousLMT <= h <= states[i + 1].dir.currentLMT
      && states[i].dir.currentLMT <= states[i + 1].dir.currentLMT
      && (forall m :: m in Seen(actions, i) ==> m <= h)
      && (h == states[i].dir.previousLMT || h in Seen(actions, i))
  {
    hide Seen, Highest, IsRun;
    ReportStep(states, actions, dir, i);
    RunKeepsInv(states, actions, dir, i);
    HighestIsSeen(states, actions, dir, i);
    HighestBounds(states[i].dir.previousLMT, Seen(actions, i));
  }

  lemma ReportStep(states: seq<State>, actions: seq<Action>, dir: Settings, i: nat)
    requires IsRun(states, actions, dir) && i < |actions| && actions[i].Report?
    ensures |states| == |actions| + 1 && states[i].running.Some?
    ensures states[i + 1].reports == states[i].reports + [states[i].running.value.highest]
    ensures states[i].dir.currentLMT <= states[i + 1].dir.currentLMT
    ensures states[i].running.value.highest <= states[i + 1].dir.currentLMT
  {
  }

  /** The baseline moves only at the end of a wave, or with new options. */
  lemma {:induction false} BaselineWithinWave(states: seq<State>, actions: seq<Action>, dir: Settings, i: nat, j: nat)
    requires IsRun(states, actions, dir) && i <= j < |states|
    requires forall k :: i <= k < j ==> !actions[k].Replace?
    requires forall k :: i <= k < j && actions[k].End? ==> states[k + 1].dir.taskCount != 0
    ensures states[j].dir.previousLMT == states[i].dir.previousLMT
  {
    if i < j {
      BaselineWithinWave(states, actions, dir, i, j - 1);
    }
  }

  /** All passes between two ends of waves start from one baseline. */
  lemma SameBaseline(states: seq<State>, actions: seq<Action>, dir: Settings, i: nat, j: nat)
    requires IsRun(states, actions, dir) && i <= j < |actions| && actions[i].Start? && actions[j].Start?
    requires forall k :: i <= k < j ==> !actions[k].Replace?
    requires forall k :: i <= k < j && actions[k].End? ==> states[k + 1].dir.taskCount != 0
    ensures states[i + 1].running.Some? && states[j + 1].running.Some?
    ensures states[i + 1].running.value.baseline == states[j + 1].running.value.baseline == states[i].dir.previousLMT
  {
    BaselineWithinWave(states, actions, dir, i, j);
  }

  /** Clients may ask for a rescan and change the options at any time. */
  lemma ClientsAreFree(s: State, chosen: Options, sameSlot: bool)
    ensures Enabled(s, Request) && Enabled(Apply(s, Request), Enqueue) && Enabled(s, Replace(chosen, sameSlot))
  {
  }

  // ---- the counts, told from the actions ----

  function Count(actions: seq<Action>, i: nat, of: Action -> bool): nat
    requires i <= |actions|
  {
    if i == 0 then 0 else Count(actions, i - 1, of) + if of(actions[i - 1]) then 1 else 0
  }

  predicate IsRequest(a: Action) { a.Request? }
  predicate IsEnqueue(a: Action) { a.Enqueue? }
  predicate IsStart(a: Action) { a.Start? }
  predicate IsCancel(a: Action) { a.Cancel? }
  predicate IsEnd(a: Action) { a.End? }

  /** The task count is the number of requests less the number of passes over the directory's current object
      that came to their end. */
  lemma {:induction false} CountIsRequestsLessEnds(states: seq<State>, actions: seq<Action>, dir: Settings, i: nat)
    requires IsRun(states, actions, dir) && i < |states|
    ensures states[i].dir.taskCount ==
              dir.taskCount + Count(actions, i, IsRequest) - Count(actions, i, IsEnd)
  {
    hide Enabled, Apply;
    if i > 0 {
      CountIsRequestsLessEnds(states, actions, dir, i - 1);
      StepCounts(states[i - 1], actions[i - 1]);
    }
  }

  function One(b: bool): int {
    if b then 1 else 0
  }

  /** What one step adds to the counts. */
  lemma StepCounts(s: State, a: Action)
    requires Enabled(s, a)
    ensures var r := Apply(s, a);
      && r.dir.taskCount == s.dir.taskCount + One(IsRequest(a)) - One(IsEnd(a))
      && (!a.Replace? || a.sameSlot ==>
            && r.requested == s.requested + One(IsRequest(a)) - One(IsEnqueue(a))
            && r.queued == s.queued + One(IsEnqueue(a)) - One(IsStart(a)) - One(IsCancel(a)))
  {
  }

  /** What waits, as long as the directory keeps its slot. */
  lemma {:induction false} WaitingCounts(states: seq<State>, actions: seq<Action>, dir: Settings, i: nat)
    requires IsRun(states, actions, dir) && i < |states|
    requires forall k :: 0 <= k < i && actions[k].Replace? ==> actions[k].sameSlot
    ensures states[i].requested == Count(actions, i, IsRequest) - Count(actions, i, IsEnqueue)
    ensures states[i].queued == Count(actions, i, IsEnqueue) - Count(actions, i, IsStart)
                                - Count(actions, i, IsCancel)
  {
    hide Enabled, Apply;
    if i > 0 {
      WaitingCounts(states, actions, dir, i - 1);
      StepCounts(states[i - 1], actions[i - 1]);
    }
  }

  predicate Leaves(a: Action) {
    a.End? || a.Throw? || a.Replace?
  }

  ghost predicate RunningSince(actions: seq<Action>, i: nat)
    requires i <= |actions|
  {
    exists j :: 0 <= j < i && actions[j].Start? && forall k :: j < k < i ==> !Leaves(actions[k])
  }

  /** The running pass has lost its directory. */
  predicate Detaches(s: State, a: Action) {
    a.Replace? && s.running.Some?
  }

  ghost predicate DetachedSince(states: seq<State>, actions: seq<Action>, i: nat)
    requires i <= |actions| < |states|
  {
    exists j :: 0 <= j < i && Detaches(states[j], actions[j]) && forall k :: j < k < i ==> !actions[k].EndDetached?
  }

  /** A pass runs from its start until it ends, fails or loses its directory; the worker is in a pass over a
      replaced object until that returns. */
  lemma {:induction false} RunningSinceStart(states: seq<State>, actions: seq<Action>, dir: Settings, i: nat)
    requires IsRun(states, actions, dir) && i < |states|
    ensures states[i].running.Some? <==> RunningSince(actions, i)
    ensures states[i].detached <==> DetachedSince(states, actions, i)
  {
    hide RunningSince, DetachedSince, Enabled, Apply, Leaves, Detaches;
    if i == 0 {
      NothingSince(states, actions);
    } else {
      RunningSinceStart(states, actions, dir, i - 1);
      RunningStep(actions, i - 1);
      DetachedStep(states, actions, i - 1);
      StepRuns(states[i - 1], actions[i - 1]);
    }
  }

  lemma NothingSince(states: seq<State>, actions: seq<Action>)
    requires |actions| < |states|
    ensures !RunningSince(actions, 0) && !DetachedSince(states, actions, 0)
  {
  }

  lemma StepRuns(s: State, a: Action)
    requires Enabled(s, a)
    ensures Apply(s, a).running.Some? <==> a.Start? || (s.running.Some? && !Leaves(a))
    ensures Apply(s, a).detached <==> Detaches(s, a) || (s.detached && !a.EndDetached?)
  {
  }

  lemma RunningStep(actions: seq<Action>, i: nat)
    requires i < |actions|
    ensures RunningSince(actions, i + 1) <==> actions[i].Start? || (RunningSince(actions, i) && !Leaves(actions[i]))
  {
    hide Leaves;
    if j :| 0 <= j < i + 1 && actions[j].Start? && forall k :: j < k < i + 1 ==> !Leaves(actions[k]) {
      assert j < i ==> !Leaves(actions[i]);
    }
  }

  lemma DetachedStep(states: seq<State>, actions: seq<Action>, i: nat)
    requires i < |actions| < |states|
    ensures DetachedSince(states, actions, i + 1) <==>
              Detaches(states[i], actions[i]) || (DetachedSince(states, actions, i) && !actions[i].EndDetached?)
  {
    hide Detaches;
    if j :| 0 <= j < i + 1 && Detaches(states[j], actions[j]) &&
            forall k :: j < k < i + 1 ==> !actions[k].EndDetached? {
      assert j < i ==> !actions[i].EndDetached?;
    }
  }

  /** A lost task keeps the count from ever reaching zero again, so that the baseline stays where it is for
      good; only new options that restart the times still move it, to zero. */
  lemma {:induction false} LostTaskStopsBaseline(states: seq<State>, actions: seq<Action>, dir: Settings,
                                                 i: nat, j: nat)
    requires IsRun(states, actions, dir) && Fresh(dir) && i <= j < |states| && states[i].lost > 0
    ensures states[j].lost > 0 && states[j].dir.taskCount > 0
    ensures states[j].dir.previousLMT == states[i].dir.previousLMT || states[j].dir.previousLMT == 0
    ensures (forall k :: i <= k < j ==> !actions[k].Replace?) ==>
              states[j].dir.previousLMT == states[i].dir.previousLMT
  {
    hide Inv, Enabled, Apply, Fresh;
    RunKeepsInv(states, actions, dir, j);
    if i < j {
      LostTaskStopsBaseline(states, actions, dir, i, j - 1);
      RunKeepsInv(states, actions, dir, j - 1);
      LostStays(states[j - 1], actions[j - 1]);
    } else {
      LostCounts(states[j]);
    }
  }

  lemma LostStays(s: State, a: Action)
    requires Inv(s) && Enabled(s, a) && s.lost > 0
    ensures var r := Apply(s, a);
      && r.lost > 0 && r.dir.taskCount > 0
      && (r.dir.previousLMT == s.dir.previousLMT || (a.Replace? && r.dir.previousLMT == 0))
  {
    InvNext(s, a);
  }

  lemma LostCounts(s: State)
    requires Inv(s) && s.lost > 0
    ensures s.dir.taskCount > 0
  {
  }

  /** So does a change of options while a rescan of the directory runs: the pass lowers the count of the
      object that was replaced, and the copy's count never returns to zero. */
  lemma NewOptionsFreezeBaseline(states: seq<State>, actions: seq<Action>, dir: Settings, i: nat, j: nat)
    requires IsRun(states, actions, dir) && Fresh(dir) && i < |actions| && i < j < |states|
    requires actions[i].Replace? && states[i].running.Some?
    ensures states[j].dir.taskCount > 0
    ensures states[j].dir.previousLMT == states[i].dir.previousLMT || states[j].dir.previousLMT == 0
  {
    hide Loses;
    LostExactly(states[i], actions[i]);
    RunningIsLost(states[i], actions[i]);
    LostTaskStopsBaseline(states, actions, dir, i + 1, j);
  }

  lemma RunningIsLost(s: State, a: Action)
    requires a.Replace? && s.running.Some?
    ensures Loses(s, a)
  {
  }
}
