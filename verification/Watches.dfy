/** The table of inotify watches and its chain of parent descriptors (AutoscanInotify).

    Paths are lists of components.  The kernel's part is given by its answers: a descriptor for each
    watched path, where `names` is the path that a descriptor was given out for.  Descriptors are never
    given out again for another path. */
module Watches {
  import opened Arrays

  const INOTIFY_ROOT := -1
  const INOTIFY_UNKNOWN_PARENT_WD := -2

  type Path = seq<string>

  datatype Watch =
    | Autoscan(startPoint: bool, location: string, nonexisting: bool)
    | Move(removeWd: int)

  datatype Node = Node(path: Path, parentWd: int, watches: seq<Watch>)

  type Table = map<int, Node>

  type Names = map<int, Path>

  // ---- the table as a value ----

  /** A non-negative parent descriptor names the direct parent directory. */
  ghost predicate NodeOk(names: Names, wd: int, n: Node) {
    && wd in names && names[wd] == n.path
    && (n.parentWd >= 0 ==> n.parentWd in names && n.path != [] && names[n.parentWd] == n.path[..|n.path| - 1])
  }

  ghost predicate TableOk(names: Names, t: Table) {
    forall wd :: wd in t ==> NodeOk(names, wd, t[wd])
  }

  /** The kernel's answers: an error, or a descriptor given out for just this path. */
  ghost predicate Answers(names: Names, kernel: Path -> int) {
    forall p :: kernel(p) >= 0 ==> kernel(p) in names && names[kernel(p)] == p
  }

  /** addMoveWatch: a new node, or an existing one that learns its parent; the watch itself is appended
      in either case. */
  function AddMove(t: Table, path: Path, wd: int, removeWd: int, parentWd: int): Table {
    if wd < 0 then t
    else
      var n := if wd in t then t[wd].(parentWd := parentWd) else Node(path, parentWd, []);
      t[wd := n.(watches := n.watches + [Move(removeWd)])]
  }

  /** The descriptor that stands for the ancestor with `n` components: what the loop of
      watchPathForMoves carries along. */
  function ParentAfter(path: Path, n: nat, kernel: Path -> int): int
    requires n <= |path|
  {
    if n == 0 then INOTIFY_ROOT else kernel(path[..n - 1])
  }

  /** The first `n` passes of watchPathForMoves, from the root directory down. */
  function WatchPath(t: Table, path: Path, removeWd: int, n: nat, kernel: Path -> int): Table
    requires n <= |path|
  {
    if n == 0 then t
    else AddMove(WatchPath(t, path, removeWd, n - 1, kernel), path[..n - 1], kernel(path[..n - 1]), removeWd,
                 ParentAfter(path, n - 1, kernel))
  }

  predicate IsAppropriate(w: Watch, location: string) {
    w.Autoscan? && !w.nonexisting && w.location == location
  }

  predicate HasAppropriate(ws: seq<Watch>, location: string) {
    exists i :: 0 <= i < |ws| && IsAppropriate(ws[i], location)
  }

  /** The node of a monitored directory: it learns its parent if it had none, and gets the watch unless
      an appropriate one is there. */
  function Enter(t: Table, path: Path, wd: int, parentWd: int, location: string, startPoint: bool,
                 nonexisting: bool): Table
  {
    var n := if wd !in t then Node(path, parentWd, [])
             else if parentWd >= 0 && t[wd].parentWd < 0 then t[wd].(parentWd := parentWd) else t[wd];
    var already := wd in t && !nonexisting && HasAppropriate(n.watches, location);
    t[wd := if already then n else n.(watches := n.watches + [Autoscan(startPoint, location, nonexisting)])]
  }

  /** monitorDirectory for a path that the kernel accepts. */
  function Monitor(t: Table, path: Path, wd: int, location: string, startPoint: bool, nonexisting: bool,
                   kernel: Path -> int): Table
  {
    if startPoint then
      Enter(WatchPath(t, path, wd, |path|, kernel), path, wd, ParentAfter(path, |path|, kernel), location, true,
            nonexisting)
    else
      Enter(t, path, wd, INOTIFY_UNKNOWN_PARENT_WD, location, false, nonexisting)
  }

  // ---- the invariant ----

  lemma AddMoveOk(names: Names, t: Table, path: Path, wd: int, removeWd: int, parentWd: int)
    requires TableOk(names, t) && (wd >= 0 ==> NodeOk(names, wd, Node(path, parentWd, [])))
    ensures TableOk(names, AddMove(t, path, wd, removeWd, parentWd))
  {
  }

  lemma {:induction false} WatchPathOk(names: Names, t: Table, path: Path, removeWd: int, n: nat, kernel: Path -> int)
    requires TableOk(names, t) && Answers(names, kernel) && n <= |path|
    ensures TableOk(names, WatchPath(t, path, removeWd, n, kernel))
  {
    if n > 0 {
      WatchPathOk(names, t, path, removeWd, n - 1, kernel);
      var p := path[..n - 1];
      assert n > 1 ==> p[..|p| - 1] == path[..n - 2];
      AddMoveOk(names, WatchPath(t, path, removeWd, n - 1, kernel), p, kernel(p), removeWd,
                ParentAfter(path, n - 1, kernel));
    }
  }

  lemma MonitorOk(names: Names, t: Table, path: Path, wd: int, location: string, startPoint: bool,
                  nonexisting: bool, kernel: Path -> int)
    requires TableOk(names, t) && Answers(names, kernel) && wd >= 0 && wd == kernel(path)
    ensures TableOk(names, Monitor(t, path, wd, location, startPoint, nonexisting, kernel))
  {
    WatchPathOk(names, t, path, wd, |path|, kernel);
  }

  // ---- climbing ----

  /** The descriptors that the climb in removeWatchMoves visits after its start. */
  function Climb(names: Names, t: Table, wd: int): (r: seq<int>)
    requires TableOk(names, t)
    ensures forall k :: k in r ==> k in t
    decreases if wd in t then |t[wd].path| + 1 else 0
  {
    if wd !in t || t[wd].parentWd < 0 || t[wd].parentWd !in t then []
    else
      assert NodeOk(names, wd, t[wd]) && NodeOk(names, t[wd].parentWd, t[t[wd].parentWd]);
      [t[wd].parentWd] + Climb(names, t, t[wd].parentWd)
  }

  /** The climb visits proper ancestors only, the nearest first, and so no directory twice. */
  lemma {:induction false} ClimbVisitsAncestors(names: Names, t: Table, wd: int)
    requires TableOk(names, t) && wd in t
    ensures var r := Climb(names, t, wd);
      && |r| <= |t[wd].path|
      && forall i :: 0 <= i < |r| ==> t[r[i]].path == t[wd].path[..|t[wd].path| - 1 - i]
    decreases |t[wd].path|
  {
    var up := t[wd].parentWd;
    if up >= 0 && up in t {
      assert NodeOk(names, wd, t[wd]) && NodeOk(names, up, t[up]);
      ClimbVisitsAncestors(names, t, up);
      var p, r := t[wd].path, Climb(names, t, wd);
      forall i | 0 <= i < |r|
        ensures |p| - 1 - i >= 0 && t[r[i]].path == p[..|p| - 1 - i]
      {
        if i > 0 {
          assert r[i] == Climb(names, t, up)[i - 1];
          assert t[up].path[..|t[up].path| - 1 - (i - 1)] == p[..|p| - 1 - i];
        }
      }
    }
  }

  /** The loop over one watch list.  The index moves on after a removal, so that the element that took
      the place is not looked at. */
  function MovesDropped(ws: seq<Watch>, i: nat, wd: int): seq<Watch>
    decreases |ws| - i
  {
    if i >= |ws| then ws
    else if ws[i] == Move(wd) && |ws| != 1 then MovesDropped(RemoveUnordered(ws, i), i + 1, wd)
    else MovesDropped(ws, i + 1, wd)
  }

  /** `r` is `ws` without some of the move watches for `wd`. */
  ghost predicate LessMoves(ws: seq<Watch>, r: seq<Watch>, wd: int) {
    multiset(r) <= multiset(ws) && forall w :: w != Move(wd) ==> multiset(r)[w] == multiset(ws)[w]
  }

  lemma LessMovesTransitive(ws: seq<Watch>, q: seq<Watch>, r: seq<Watch>, wd: int)
    requires LessMoves(ws, q, wd) && LessMoves(q, r, wd)
    ensures LessMoves(ws, r, wd)
  {
  }

  lemma OneMoveLess(ws: seq<Watch>, i: nat, wd: int)
    requires i < |ws| && ws[i] == Move(wd)
    ensures LessMoves(ws, RemoveUnordered(ws, i), wd)
  {
    RemoveParts(ws, i);
  }

  lemma NoMoveLess(ws: seq<Watch>, wd: int)
    ensures LessMoves(ws, ws, wd)
  {
  }

  /** Only move watches for `wd` are dropped. */
  lemma {:induction false} DropMovesOnly(ws: seq<Watch>, i: nat, wd: int)
    ensures LessMoves(ws, MovesDropped(ws, i, wd), wd)
    decreases |ws| - i
  {
    hide LessMoves, RemoveUnordered;
    if i >= |ws| {
      NoMoveLess(ws, wd);
    } else if ws[i] == Move(wd) && |ws| != 1 {
      OneMoveLess(ws, i, wd);
      DropMovesOnly(RemoveUnordered(ws, i), i + 1, wd);
      LessMovesTransitive(ws, RemoveUnordered(ws, i), MovesDropped(ws, i, wd), wd);
    } else {
      DropMovesOnly(ws, i + 1, wd);
    }
  }

  /** A move watch survives in the part of a list that starts with `ws`: of the last m - 1 elements, m being
      the number of move watches, one is such a watch.  It takes the place of a removed one and is passed
      over. */
  predicate TailHolds(ws: seq<Watch>, wd: int) {
    var m := multiset(ws)[Move(wd)];
    m > 0 && Move(wd) in ws[|ws| - m + 1..]
  }

  lemma CountAtMost(ws: seq<Watch>, w: Watch)
    ensures multiset(ws)[w] <= |ws|
    ensures multiset(ws)[w] > 0 <==> w in ws
  {
    assert |multiset(ws)| == |ws|;
  }

  /** The loop from index `i` on leaves a move watch exactly when one stands before `i`, or the tail condition
      holds of the rest. */
  lemma {:induction false} DropMovesFrom(ws: seq<Watch>, i: nat, wd: int)
    requires i <= |ws| && (|ws| != 1 || i > 0)
    ensures Move(wd) in MovesDropped(ws, i, wd) <==> Move(wd) in ws[..i] || TailHolds(ws[i..], wd)
    decreases |ws| - i
  {
    hide TailHolds, RemoveUnordered;
    var n := |ws|;
    if i == n {
      assert ws[..i] == ws && ws[i..] == [];
      NoTail(wd);
    } else if ws[i] != Move(wd) {
      DropMovesFrom(ws, i + 1, wd);
      assert ws[..i + 1] == ws[..i] + [ws[i]] && ws[i..] == [ws[i]] + ws[i + 1..];
      OtherFirst(ws[i], ws[i + 1..], wd);
    } else {
      DropMovesStep(ws, i, wd);
      if i == n - 1 {
        LastDropped(ws, wd);
      } else {
        MiddleDropped(ws, i, wd);
        DropMovesFrom(RemoveUnordered(ws, i), i + 1, wd);
      }
    }
  }

  lemma NoTail(wd: int)
    ensures !TailHolds([], wd)
  {
  }

  lemma OtherFirst(w: Watch, ws: seq<Watch>, wd: int)
    requires w != Move(wd)
    ensures TailHolds([w] + ws, wd) <==> TailHolds(ws, wd)
  {
    CountAtMost(ws, Move(wd));
    assert multiset([w] + ws) == multiset{w} + multiset(ws);
    var m := multiset(ws)[Move(wd)];
    if m > 0 {
      assert ([w] + ws)[|ws| + 1 - m + 1..] == ws[|ws| - m + 1..];
    }
  }

  lemma LastDropped(ws: seq<Watch>, wd: int)
    requires |ws| > 1 && ws[|ws| - 1] == Move(wd)
    ensures var n := |ws|; var r := RemoveUnordered(ws, n - 1);
      && MovesDropped(r, n, wd) == ws[..n - 1]
      && !TailHolds(ws[n - 1..], wd)
  {
    var n := |ws|;
    assert ws[n - 1..] == [Move(wd)];
    assert multiset([Move(wd)])[Move(wd)] == 1;
  }

  /** A move watch that is not the last one: the last element takes its place, and is passed over. */
  lemma MiddleDropped(ws: seq<Watch>, i: nat, wd: int)
    requires i < |ws| - 1 && ws[i] == Move(wd)
    ensures var r := RemoveUnordered(ws, i);
      && i + 1 <= |r| && r[..i + 1] == ws[..i] + [ws[|ws| - 1]]
      && (ws[|ws| - 1] == Move(wd) ==> TailHolds(ws[i..], wd))
      && (ws[|ws| - 1] != Move(wd) ==> (TailHolds(ws[i..], wd) <==> TailHolds(r[i + 1..], wd)))
  {
    var n := |ws|;
    var r := RemoveUnordered(ws, i);
    var mid, l := ws[i + 1..n - 1], ws[n - 1];
    assert r[i + 1..] == mid;
    assert ws[i..] == [Move(wd)] + (mid + [l]);
    TailOfMiddle(mid, l, wd);
  }

  lemma TailOfMiddle(mid: seq<Watch>, l: Watch, wd: int)
    ensures var t := [Move(wd)] + (mid + [l]);
      && (l == Move(wd) ==> TailHolds(t, wd))
      && (l != Move(wd) ==> (TailHolds(t, wd) <==> TailHolds(mid, wd)))
  {
    var t := [Move(wd)] + (mid + [l]);
    assert multiset(t) == multiset{Move(wd)} + (multiset(mid) + multiset{l});
    CountAtMost(mid, Move(wd));
    CountAtMost(t, Move(wd));
    var k := multiset(mid)[Move(wd)];
    if l == Move(wd) {
      var tail := t[|t| - (k + 2) + 1..];
      assert tail[|tail| - 1] == l;
    } else {
      if k > 0 {
        assert t[|t| - (k + 1) + 1..] == mid[|mid| - k + 1..] + [l];
      }
    }
  }

  /** The loop over one watch list drops all move watches of the descriptor exactly when there are none, or
      the list is not just one and the last m - 1 elements hold none, m being their number.  In the list
      with a single watch the watch stays, and the kernel is told to drop the descriptor. */
  lemma DropMovesComplete(ws: seq<Watch>, wd: int)
    ensures var m := multiset(ws)[Move(wd)];
      && m <= |ws|
      && (Move(wd) !in MovesDropped(ws, 0, wd) <==>
            m == 0 || (ws != [Move(wd)] && Move(wd) !in ws[|ws| - m + 1..]))
  {
    CountAtMost(ws, Move(wd));
    if |ws| == 1 {
      assert MovesDropped(ws, 0, wd) == ws;
      assert ws == [ws[0]];
    } else {
      DropMovesFrom(ws, 0, wd);
      assert ws[..0] == [] && ws[0..] == ws;
    }
  }

  lemma DropMovesStep(ws: seq<Watch>, i: nat, wd: int)
    requires i < |ws| && ws[i] == Move(wd) && |ws| != 1
    ensures MovesDropped(ws, i, wd) == MovesDropped(RemoveUnordered(ws, i), i + 1, wd)
  {
  }

  /** For instance, of two move watches at the end of a list the second survives. */
  lemma DuplicateSurvives(ws: seq<Watch>, wd: int)
    requires Move(wd) !in ws
    ensures Move(wd) in MovesDropped(ws + [Move(wd), Move(wd)], 0, wd)
  {
    var t := ws + [Move(wd), Move(wd)];
    CountAtMost(ws, Move(wd));
    assert multiset(t) == multiset(ws) + multiset{Move(wd), Move(wd)};
    assert t[|t| - 1..] == [Move(wd)];
    DropMovesComplete(t, wd);
  }

  function DropAt(t: Table, visited: seq<int>, wd: int): Table
    requires forall k :: k in visited ==> k in t
  {
    if visited == [] then t
    else
      var k := visited[0];
      DropAt(t[k := t[k].(watches := MovesDropped(t[k].watches, 0, wd))], visited[1..], wd)
  }

  function RemoveMoves(names: Names, t: Table, wd: int): Table
    requires TableOk(names, t)
  {
    DropAt(t, Climb(names, t, wd), wd)
  }

  lemma {:induction false} DropAtEffect(t: Table, visited: seq<int>, wd: int)
    requires forall k :: k in visited ==> k in t
    ensures var r := DropAt(t, visited, wd);
      && r.Keys == t.Keys
      && forall k :: k in t ==>
           && r[k].path == t[k].path && r[k].parentWd == t[k].parentWd
           && (k !in visited ==> r[k] == t[k])
           && LessMoves(t[k].watches, r[k].watches, wd)
    decreases |visited|
  {
    hide LessMoves, MovesDropped;
    forall k | k in t
      ensures LessMoves(t[k].watches, t[k].watches, wd)
    {
      NoMoveLess(t[k].watches, wd);
    }
    if visited != [] {
      var v := visited[0];
      DropMovesOnly(t[v].watches, 0, wd);
      var t1 := t[v := t[v].(watches := MovesDropped(t[v].watches, 0, wd))];
      DropAtEffect(t1, visited[1..], wd);
      LessMovesTransitive(t[v].watches, t1[v].watches, DropAt(t, visited, wd)[v].watches, wd);
    }
  }

  /** Removing the move watches of a descriptor touches only directories above it, takes only its own
      move watches, and keeps the chain of parents. */
  lemma RemoveMovesEffect(names: Names, t: Table, wd: int)
    requires TableOk(names, t) && wd in t
    ensures var r := RemoveMoves(names, t, wd);
      && TableOk(names, r) && r.Keys == t.Keys
      && forall k :: k in t ==>
           && r[k].path == t[k].path && r[k].parentWd == t[k].parentWd
           && (!(t[k].path < t[wd].path) ==> r[k] == t[k])
           && LessMoves(t[k].watches, r[k].watches, wd)
  {
    var visited := Climb(names, t, wd);
    ClimbVisitsAncestors(names, t, wd);
    DropAtEffect(t, visited, wd);
    forall k | k in visited
      ensures t[k].path < t[wd].path
    {
      var i :| 0 <= i < |visited| && visited[i] == k;
    }
  }

  // ---- runs ----

  datatype Op =
    | MonitorDirectory(path: Path, location: string, startPoint: bool, nonexisting: bool, kernel: Path -> int)
    | Ignored(wd: int)                      // the kernel has dropped a descriptor
    | Edit(wd: int, watches: seq<Watch>)    // any other change of one watch list

  ghost predicate OpOk(names: Names, op: Op) {
    op.MonitorDirectory? ==> Answers(names, op.kernel)
  }

  ghost function Step(names: Names, t: Table, op: Op): (r: Table)
    requires TableOk(names, t) && OpOk(names, op)
    ensures TableOk(names, r)
  {
    match op
    case MonitorDirectory(path, location, startPoint, nonexisting, kernel) =>
      if kernel(path) < 0 then t
      else
        MonitorOk(names, t, path, kernel(path), location, startPoint, nonexisting, kernel);
        Monitor(t, path, kernel(path), location, startPoint, nonexisting, kernel)
    case Ignored(wd) =>
      if wd !in t then t
      else
        RemoveMovesEffect(names, t, wd);
        RemoveMoves(names, t, wd) - {wd}
    case Edit(wd, ws) => if wd in t then t[wd := t[wd].(watches := ws)] else t
  }

  /** The table after a run; `names` covers all descriptors that the kernel ever gave out. */
  ghost function Run(names: Names, ops: seq<Op>): (t: Table)
    requires forall i :: 0 <= i < |ops| ==> OpOk(names, ops[i])
    ensures TableOk(names, t)
  {
    if ops == [] then map[] else Step(names, Run(names, ops[..|ops| - 1]), ops[|ops| - 1])
  }

  /** In every reachable table following a parent descriptor leads to the direct parent directory, so
      that every climb ends, after at most as many steps as the path has components. */
  lemma ReachableClimbsEnd(names: Names, ops: seq<Op>, wd: int)
    requires forall i :: 0 <= i < |ops| ==> OpOk(names, ops[i])
    requires wd in Run(names, ops)
    ensures var t := Run(names, ops);
      && (t[wd].parentWd in t ==> t[wd].parentWd < 0 || t[t[wd].parentWd].path == t[wd].path[..|t[wd].path| - 1])
      && |Climb(names, t, wd)| <= |t[wd].path|
      && forall k :: k in Climb(names, t, wd) ==> t[k].path < t[wd].path
  {
    hide Step, Climb;
    var t := Run(names, ops);
    ClimbVisitsAncestors(names, t, wd);
    assert NodeOk(names, wd, t[wd]);
    if t[wd].parentWd in t {
      assert NodeOk(names, t[wd].parentWd, t[t[wd].parentWd]);
    }
    var r := Climb(names, t, wd);
    forall k | k in r
      ensures t[k].path < t[wd].path
    {
      var i :| 0 <= i < |r| && r[i] == k;
    }
  }

  // ---- a start point that is monitored twice ----

  /** The kernel accepts the path and all directories above it. */
  ghost predicate Accepts(kernel: Path -> int, path: Path) {
    forall n :: 0 <= n <= |path| ==> kernel(path[..n]) >= 0
  }

  function WatchesOf(t: Table, wd: int): seq<Watch> {
    if wd in t then t[wd].watches else []
  }

  /** Each directory above the path gets one more move watch. */
  lemma {:induction false} WatchPathLists(names: Names, t: Table, path: Path, wd: int, n: nat, kernel: Path -> int)
    requires Answers(names, kernel) && Accepts(kernel, path) && n <= |path|
    ensures var r := WatchPath(t, path, wd, n, kernel);
      forall m :: 0 <= m <= |path| ==>
        && (m < n || kernel(path[..m]) in t ==> kernel(path[..m]) in r)
        && WatchesOf(r, kernel(path[..m])) ==
             WatchesOf(t, kernel(path[..m])) + if m < n then [Move(wd)] else []
  {
    if n > 0 {
      WatchPathLists(names, t, path, wd, n - 1, kernel);
      var before, at := WatchPath(t, path, wd, n - 1, kernel), kernel(path[..n - 1]);
      forall m | 0 <= m <= |path| && kernel(path[..m]) == at
        ensures m == n - 1
      {
        assert |names[kernel(path[..m])]| == m && |names[at]| == n - 1;
      }
      AddedWatch(before, path[..n - 1], at, wd, ParentAfter(path, n - 1, kernel));
    }
  }

  lemma AddedWatch(t: Table, path: Path, wd: int, removeWd: int, parentWd: int)
    requires wd >= 0
    ensures var r := AddMove(t, path, wd, removeWd, parentWd);
      && r.Keys == t.Keys + {wd} && WatchesOf(r, wd) == WatchesOf(t, wd) + [Move(removeWd)]
      && forall k :: k != wd ==> WatchesOf(r, k) == WatchesOf(t, k)
  {
  }

  lemma MonitorLists(names: Names, t: Table, path: Path, location: string, kernel: Path -> int)
    requires Answers(names, kernel) && Accepts(kernel, path)
    ensures var wd := kernel(path); var r := Monitor(t, path, wd, location, true, false, kernel);
      && wd in r
      && forall m :: 0 <= m < |path| ==>
           kernel(path[..m]) in r && WatchesOf(r, kernel(path[..m])) == WatchesOf(t, kernel(path[..m])) + [Move(wd)]
  {
    hide WatchPath, HasAppropriate;
    var wd := kernel(path);
    assert path[..|path|] == path;
    WatchPathLists(names, t, path, wd, |path|, kernel);
    forall m | 0 <= m < |path|
      ensures kernel(path[..m]) != wd
    {
      assert |names[kernel(path[..m])]| == m && |names[wd]| == |path|;
    }
  }

  /** Dropping does not get rid of two move watches that stand alone in a list. */
  lemma {:induction false} PairNeverGoes(t: Table, visited: seq<int>, wd: int, k: int)
    requires (forall v :: v in visited ==> v in t) && k in t
    requires t[k].watches == [Move(wd), Move(wd)] || t[k].watches == [Move(wd)]
    ensures k in DropAt(t, visited, wd) && Move(wd) in DropAt(t, visited, wd)[k].watches
    decreases |visited|
  {
    if visited != [] {
      var v := visited[0];
      hide MovesDropped;
      PairDropped(wd);
      PairNeverGoes(t[v := t[v].(watches := MovesDropped(t[v].watches, 0, wd))], visited[1..], wd, k);
    }
  }

  lemma PairDropped(wd: int)
    ensures MovesDropped([Move(wd), Move(wd)], 0, wd) == [Move(wd)] == MovesDropped([Move(wd)], 0, wd)
  {
    var two, one := [Move(wd), Move(wd)], [Move(wd)];
    assert RemoveUnordered(two, 0) == one;
    assert MovesDropped(one, 1, wd) == one;
  }

  function MonitorTwice(path: Path, location: string, kernel: Path -> int): seq<Op> {
    var op := Op.MonitorDirectory(path, location, true, false, kernel);
    [op, op]
  }

  /** A start point that is monitored twice leaves two move watches in every directory above it; and when
      its own watch goes, one of them stays behind in each. */
  lemma MonitoredTwice(names: Names, path: Path, location: string, kernel: Path -> int)
    requires Answers(names, kernel) && Accepts(kernel, path)
    ensures var wd, ops := kernel(path), MonitorTwice(path, location, kernel);
      && (forall m :: 0 <= m < |path| ==>
            WatchesOf(Run(names, ops), kernel(path[..m])) == [Move(wd), Move(wd)])
      && (forall m :: 0 <= m < |path| ==>
            Move(wd) in WatchesOf(Run(names, ops + [Op.Ignored(wd)]), kernel(path[..m])))
  {
    hide Monitor, RemoveMoves, WatchPath;
    var wd, ops := kernel(path), MonitorTwice(path, location, kernel);
    assert path[..|path|] == path;
    var once := Monitor(map[], path, wd, location, true, false, kernel);
    var twice := Monitor(once, path, wd, location, true, false, kernel);
    TwoRuns(names, path, location, kernel);
    MonitorLists(names, map[], path, location, kernel);
    MonitorLists(names, once, path, location, kernel);
    assert (ops + [Op.Ignored(wd)])[..2] == ops;
    forall m | 0 <= m < |path|
      ensures Move(wd) in WatchesOf(RemoveMoves(names, twice, wd) - {wd}, kernel(path[..m]))
    {
      PairSurvives(names, twice, wd, kernel(path[..m]));
      assert |names[kernel(path[..m])]| == m && |names[wd]| == |path|;
    }
  }

  lemma PairSurvives(names: Names, t: Table, wd: int, k: int)
    requires TableOk(names, t) && k in t && t[k].watches == [Move(wd), Move(wd)]
    ensures k in RemoveMoves(names, t, wd) && Move(wd) in RemoveMoves(names, t, wd)[k].watches
  {
    PairNeverGoes(t, Climb(names, t, wd), wd, k);
  }

  lemma TwoRuns(names: Names, path: Path, location: string, kernel: Path -> int)
    requires Answers(names, kernel) && Accepts(kernel, path)
    ensures var wd := kernel(path);
      Run(names, MonitorTwice(path, location, kernel)) ==
        Monitor(Monitor(map[], path, wd, location, true, false, kernel), path, wd, location, true, false, kernel)
  {
    hide Monitor, TableOk;
    var op := Op.MonitorDirectory(path, location, true, false, kernel);
    var ops := MonitorTwice(path, location, kernel);
    assert path[..|path|] == path;
    assert ops[..1] == [op] && [op][..0] == [];
    assert Run(names, []) == map[];
    assert Run(names, [op]) == Step(names, map[], op);
  }

  // ---- the autoscan watches ----

  /** Monitoring a directory again for the same location adds no second watch; for another location it does. */
  lemma OneWatchForALocation(t: Table, path: Path, wd: int, parentWd: int, location: string, startPoint: bool)
    ensures var r := Enter(t, path, wd, parentWd, location, startPoint, false);
      && wd in r
      && r[wd].watches ==
           if exists i, start :: 0 <= i < |WatchesOf(t, wd)| && WatchesOf(t, wd)[i] == Autoscan(start, location, false)
           then WatchesOf(t, wd)
           else WatchesOf(t, wd) + [Autoscan(startPoint, location, false)]
  {
    var ws := WatchesOf(t, wd);
    if HasAppropriate(ws, location) {
      var i :| 0 <= i < |ws| && IsAppropriate(ws[i], location);
      assert ws[i] == Autoscan(ws[i].startPoint, location, false);
    }
  }

  /** A directory that is no start point gets its own watch only: no other node changes, and it learns no
      parent. */
  lemma NoStartPoint(t: Table, path: Path, wd: int, location: string, nonexisting: bool, kernel: Path -> int)
    ensures var r := Monitor(t, path, wd, location, false, nonexisting, kernel);
      && r.Keys == t.Keys + {wd} && (forall k :: k in t && k != wd ==> r[k] == t[k])
      && r[wd].parentWd == (if wd in t then t[wd].parentWd else INOTIFY_UNKNOWN_PARENT_WD)
      && (r[wd].watches == WatchesOf(t, wd) ||
          r[wd].watches == WatchesOf(t, wd) + [Autoscan(false, location, nonexisting)])
      && (nonexisting ==> r[wd].watches == WatchesOf(t, wd) + [Autoscan(false, location, true)])
  {
    hide HasAppropriate;
  }

  // ---- a start point that is monitored once ----

  /** Every directory on the way has a node, whose parent is the directory above. */
  ghost predicate Linked(t: Table, path: Path, n: nat, kernel: Path -> int)
    requires n <= |path|
  {
    forall m :: 0 <= m < n ==>
      && kernel(path[..m]) in t
      && t[kernel(path[..m])].parentWd == if m == 0 then INOTIFY_ROOT else kernel(path[..m - 1])
  }

  lemma DistinctOnTheWay(names: Names, path: Path, kernel: Path -> int)
    requires Answers(names, kernel) && Accepts(kernel, path)
    ensures forall m, n :: 0 <= m <= |path| && 0 <= n <= |path| && kernel(path[..m]) == kernel(path[..n]) ==> m == n
  {
    forall m, n | 0 <= m <= |path| && 0 <= n <= |path| && kernel(path[..m]) == kernel(path[..n])
      ensures m == n
    {
      assert |names[kernel(path[..m])]| == m && |names[kernel(path[..n])]| == n;
    }
  }

  lemma {:induction false} WatchPathLinks(names: Names, t: Table, path: Path, wd: int, n: nat, kernel: Path -> int)
    requires Answers(names, kernel) && Accepts(kernel, path) && n <= |path|
    ensures Linked(WatchPath(t, path, wd, n, kernel), path, n, kernel)
  {
    DistinctOnTheWay(names, path, kernel);
    if n > 0 {
      WatchPathLinks(names, t, path, wd, n - 1, kernel);
    }
  }

  lemma {:induction false} WatchPathKeeps(names: Names, t: Table, path: Path, wd: int, n: nat, kernel: Path -> int,
                                          k: int)
    requires n <= |path| && forall m :: 0 <= m < n ==> kernel(path[..m]) != k
    ensures var r := WatchPath(t, path, wd, n, kernel);
      (k in r <==> k in t) && (k in t ==> r[k] == t[k])
  {
    if n > 0 {
      WatchPathKeeps(names, t, path, wd, n - 1, kernel, k);
    }
  }

  lemma EnterLinks(t: Table, path: Path, wd: int, parentWd: int, location: string)
    ensures var r := Enter(t, path, wd, parentWd, location, true, false);
      && r.Keys == t.Keys + {wd} && (forall k :: k in t && k != wd ==> r[k] == t[k])
      && (wd !in t || (t[wd].parentWd < 0 && parentWd >= 0) ==> r[wd].parentWd == parentWd)
  {
    hide HasAppropriate;
  }

  /** Monitoring a start point that has no node yet, or one without a parent, links it to the root directory. */
  lemma MonitorLinks(names: Names, t: Table, path: Path, location: string, kernel: Path -> int)
    requires Answers(names, kernel) && Accepts(kernel, path)
    requires kernel(path) in t ==> t[kernel(path)].parentWd < 0
    ensures var r := Monitor(t, path, kernel(path), location, true, false, kernel);
      && Linked(r, path, |path|, kernel) && kernel(path) in r
      && (path != [] ==> r[kernel(path)].parentWd == kernel(path[..|path| - 1]))
      && (path == [] && kernel(path) !in t ==> r[kernel(path)].parentWd == INOTIFY_ROOT)
  {
    hide WatchPath, Enter;
    var wd := kernel(path);
    assert path[..|path|] == path;
    EnterLinks(WatchPath(t, path, wd, |path|, kernel), path, wd, ParentAfter(path, |path|, kernel), location);
    forall m | 0 <= m < |path|
      ensures kernel(path[..m]) != wd
    {
      assert |names[kernel(path[..m])]| == m && |names[wd]| == |path|;
    }
    WatchPathLinks(names, t, path, wd, |path|, kernel);
    WatchPathKeeps(names, t, path, wd, |path|, kernel, wd);
    if path != [] {
      assert kernel(path[..|path| - 1]) >= 0;
    }
  }

  /** From a linked directory the climb visits all directories above it. */
  lemma {:induction false} ClimbToRoot(names: Names, t: Table, path: Path, n: nat, kernel: Path -> int)
    requires TableOk(names, t) && Accepts(kernel, path) && n <= |path| && Linked(t, path, n, kernel)
    requires kernel(path[..n]) in t
    requires t[kernel(path[..n])].parentWd == if n == 0 then INOTIFY_ROOT else kernel(path[..n - 1])
    ensures var r := Climb(names, t, kernel(path[..n]));
      |r| == n && forall k :: 0 <= k < n ==> r[k] == kernel(path[..n - 1 - k])
  {
    if n > 0 {
      ClimbToRoot(names, t, path, n - 1, kernel);
    }
  }

  /** A single move watch behind others is dropped, and nothing else. */
  lemma {:induction false} LastMoveDropped(ws: seq<Watch>, i: nat, wd: int)
    requires ws != [] && Move(wd) !in ws && i <= |ws|
    ensures MovesDropped(ws + [Move(wd)], i, wd) == ws
    decreases |ws| - i
  {
    var s := ws + [Move(wd)];
    if i < |ws| {
      assert s[i] == ws[i] && ws[i] in ws;
      LastMoveDropped(ws, i + 1, wd);
    } else {
      assert RemoveUnordered(s, i) == ws;
    }
  }

  lemma {:induction false} DropAtEach(t: Table, visited: seq<int>, wd: int)
    requires forall k :: k in visited ==> k in t
    requires forall i, j :: 0 <= i < j < |visited| ==> visited[i] != visited[j]
    ensures var r := DropAt(t, visited, wd);
      && r.Keys == t.Keys
      && (forall k :: k in visited ==> r[k] == t[k].(watches := MovesDropped(t[k].watches, 0, wd)))
      && (forall k :: k in t && k !in visited ==> r[k] == t[k])
    decreases |visited|
  {
    hide MovesDropped;
    if visited != [] {
      var v := visited[0];
      DropAtEach(t[v := t[v].(watches := MovesDropped(t[v].watches, 0, wd))], visited[1..], wd);
      assert forall k :: k in visited <==> k == v || k in visited[1..];
    }
  }

  /** After `wd` has been dropped from `r`, the directory `k` has the watches it had in `t`.  Where it had
      none, the kernel is told to drop its watch. */
  ghost predicate Restored(names: Names, t: Table, r: Table, wd: int, k: int)
    requires TableOk(names, r)
  {
    var ws := WatchesOf(t, k);
    && WatchesOf(Step(names, r, Op.Ignored(wd)), k) == (if ws == [] then [Move(wd)] else ws)
    && (k in MovesOnly(r, Climb(names, r, wd), wd) <==> ws == [])
  }

  /** Dropping undoes monitoring: after a start point was monitored, the climb from it visits every directory
      above; and when its watch goes, each of these has the watches it had before. */
  lemma MonitoredOnce(names: Names, t: Table, path: Path, location: string, kernel: Path -> int)
    requires TableOk(names, t) && Answers(names, kernel) && Accepts(kernel, path) && kernel(path) !in t
    requires forall m :: 0 <= m < |path| ==> Move(kernel(path)) !in WatchesOf(t, kernel(path[..m]))
    ensures var wd := kernel(path); var op := Op.MonitorDirectory(path, location, true, false, kernel);
      var r := Step(names, t, op);
      && wd in r && Linked(r, path, |path|, kernel)
      && (path != [] ==> r[wd].parentWd == kernel(path[..|path| - 1]))
      && |Climb(names, r, wd)| == |path|
      && (forall k :: 0 <= k < |path| ==> Climb(names, r, wd)[k] == kernel(path[..|path| - 1 - k]))
      && (forall m :: 0 <= m < |path| ==> Restored(names, t, r, wd, kernel(path[..m])))
  {
    hide Monitor, RemoveMoves, Climb, TableOk, Restored;
    var wd := kernel(path);
    assert path[..|path|] == path;
    var r := Monitor(t, path, wd, location, true, false, kernel);
    assert r == Step(names, t, Op.MonitorDirectory(path, location, true, false, kernel));
    MonitorLinks(names, t, path, location, kernel);
    MonitorLists(names, t, path, location, kernel);
    ClimbToRoot(names, r, path, |path|, kernel);
    forall m | 0 <= m < |path|
      ensures Restored(names, t, r, wd, kernel(path[..m]))
    {
      DroppedAbove(names, t, r, path, kernel, m);
    }
  }

  lemma DroppedAbove(names: Names, t: Table, r: Table, path: Path, kernel: Path -> int, m: nat)
    requires TableOk(names, r) && Answers(names, kernel) && Accepts(kernel, path) && m < |path| && kernel(path) in r
    requires var k, wd := kernel(path[..m]), kernel(path);
      && k in r && Move(wd) !in WatchesOf(t, k) && r[k].watches == WatchesOf(t, k) + [Move(wd)]
    requires var v := Climb(names, r, kernel(path));
      |v| == |path| && forall i :: 0 <= i < |path| ==> v[i] == kernel(path[..|path| - 1 - i])
    ensures Restored(names, t, r, kernel(path), kernel(path[..m]))
  {
    hide Climb, TableOk, MovesDropped, DropAt;
    var k, wd := kernel(path[..m]), kernel(path);
    var v, ws := Climb(names, r, wd), WatchesOf(t, k);
    assert path[..|path|] == path;
    assert |names[k]| == m && |names[wd]| == |path|;
    forall i, j | 0 <= i < j < |v|
      ensures v[i] != v[j]
    {
      assert |names[v[i]]| == |path| - 1 - i && |names[v[j]]| == |path| - 1 - j;
    }
    assert v[|path| - 1 - m] == k;
    DropAtEach(r, v, wd);
    StepIgnored(names, r, wd);
    assert WatchesOf(Step(names, r, Op.Ignored(wd)), k) == MovesDropped(ws + [Move(wd)], 0, wd);
    if ws == [] {
      assert ws + [Move(wd)] == [Move(wd)];
      PairDropped(wd);
    } else {
      assert |ws + [Move(wd)]| > 1;
      LastMoveDropped(ws, 0, wd);
    }
  }

  // ---- the objects ----

  class Wd {
    const path: Path
    const wd: int
    var parentWd: int
    var wdWatches: seq<Watch>

    constructor (path: Path, wd: int, parentWd: int)
      ensures this.wd == wd && GetNode() == Node(path, parentWd, [])
    {
      this.path, this.wd, this.parentWd := path, wd, parentWd;
      wdWatches := [];
    }

    function GetNode(): Node
      reads this
    {
      Node(path, parentWd, wdWatches)
    }
  }

  ghost function NodesOf(ws: map<int, Wd>): (t: Table)
    reads ws.Values
    ensures t.Keys == ws.Keys && forall wd :: wd in ws ==> t[wd] == ws[wd].GetNode()
  {
    map wd | wd in ws :: ws[wd].GetNode()
  }

  class AutoscanInotify {
    var watches: map<int, Wd>

    constructor ()
      ensures Valid() && View() == map[]
    {
      watches := map[];
    }

    ghost function View(): Table
      reads this, watches.Values
    {
      NodesOf(watches)
    }

    ghost predicate Valid()
      reads this, watches.Values
    {
      forall wd :: wd in watches ==> watches[wd].wd == wd
    }

    /** The watch list of one descriptor grows. */
    method AppendWatch(wd: int, wdObj: Wd, w: Watch)
      requires Valid() && wd in watches && watches[wd] == wdObj
      modifies wdObj`wdWatches
      ensures Valid() && View() == old(View())[wd := old(wdObj.GetNode()).(watches := old(wdObj.wdWatches) + [w])]
    {
      hide NodesOf;
      ghost var t := View();
      assert forall k :: k in watches && k != wd ==> watches[k] != wdObj;
      wdObj.wdWatches := wdObj.wdWatches + [w];
      assert View() == t[wd := wdObj.GetNode()];
    }

    /** The node of a descriptor, made if there is none; an existing one takes a new parent if `force` is
        set, or if it has none and a parent is known. */
    method NodeOf(path: Path, wd: int, parentWd: int, force: bool) returns (wdObj: Wd, existed: bool)
      requires Valid()
      modifies this, watches.Values
      ensures Valid() && wd in watches && watches[wd] == wdObj && fresh(watches.Values - old(watches.Values))
      ensures existed <==> wd in old(View())
      ensures var t := old(View());
        View() == t[wd := if !existed then Node(path, parentWd, [])
                          else if force || (parentWd >= 0 && t[wd].parentWd < 0) then t[wd].(parentWd := parentWd)
                          else t[wd]]
    {
      hide NodesOf;
      ghost var t := View();
      existed := wd in watches;
      if existed {
        wdObj := watches[wd];
        assert forall k :: k in watches && k != wd ==> watches[k] != wdObj;
        if force || (parentWd >= 0 && wdObj.parentWd < 0) {
          wdObj.parentWd := parentWd;
        }
      } else {
        wdObj := new Wd(path, wd, parentWd);
        watches := watches[wd := wdObj];
      }
      assert View() == t[wd := wdObj.GetNode()];
    }

    method AddMoveWatch(path: Path, removeWd: int, parentWd: int, kernel: Path -> int) returns (wd: int)
      requires Valid()
      modifies this, watches.Values
      ensures Valid() && wd == kernel(path) && fresh(watches.Values - old(watches.Values))
      ensures View() == AddMove(old(View()), path, wd, removeWd, parentWd)
    {
      hide NodesOf, Valid;
      wd := kernel(path);
      if wd >= 0 {
        ghost var t := View();
        var wdObj, existed := NodeOf(path, wd, parentWd, true);
        ghost var n := View()[wd];
        UpdatedTwice(t, wd, n, n.(watches := n.watches + [Move(removeWd)]));
        AppendWatch(wd, wdObj, Move(removeWd));
      }
    }

    method WatchPathForMoves(path: Path, wd: int, kernel: Path -> int) returns (parentWd: int)
      requires Valid()
      modifies this, watches.Values
      ensures Valid() && fresh(watches.Values - old(watches.Values))
      ensures parentWd == ParentAfter(path, |path|, kernel)
      ensures View() == WatchPath(old(View()), path, wd, |path|, kernel)
    {
      parentWd := INOTIFY_ROOT;
      var i := 0;
      while i < |path|
        invariant 0 <= i <= |path| && Valid() && fresh(watches.Values - old(watches.Values))
        invariant parentWd == ParentAfter(path, i, kernel)
        invariant View() == WatchPath(old(View()), path, wd, i, kernel)
      {
        parentWd := AddMoveWatch(path[..i], wd, parentWd, kernel);
        i := i + 1;
      }
    }

    /** getAppropriateAutoscan for an autoscan directory. */
    static method HasAppropriateAutoscan(wdObj: Wd, location: string) returns (found: bool)
      ensures found <==> HasAppropriate(wdObj.wdWatches, location)
    {
      var i := 0;
      while i < |wdObj.wdWatches|
        invariant 0 <= i <= |wdObj.wdWatches|
        invariant forall j :: 0 <= j < i ==> !IsAppropriate(wdObj.wdWatches[j], location)
      {
        if IsAppropriate(wdObj.wdWatches[i], location) {
          return true;
        }
        i := i + 1;
      }
      return false;
    }

    method MonitorDirectory(path: Path, location: string, startPoint: bool, nonexisting: bool,
                            kernel: Path -> int) returns (wd: int)
      requires Valid()
      modifies this, watches.Values
      ensures Valid() && wd == kernel(path)
      ensures View() == if wd < 0 then old(View())
                        else Monitor(old(View()), path, wd, location, startPoint, nonexisting, kernel)
    {
      wd := kernel(path);
      if wd < 0 {
        return;
      }
      var parentWd := INOTIFY_UNKNOWN_PARENT_WD;
      if startPoint {
        parentWd := WatchPathForMoves(path, wd, kernel);
      }
      EnterDirectory(path, wd, parentWd, location, startPoint, nonexisting);
    }

    /** The second half of monitorDirectory: the node and its watch. */
    method EnterDirectory(path: Path, wd: int, parentWd: int, location: string, startPoint: bool, nonexisting: bool)
      requires Valid()
      modifies this, watches.Values
      ensures Valid() && View() == Enter(old(View()), path, wd, parentWd, location, startPoint, nonexisting)
    {
      hide NodesOf, HasAppropriate, Enter, Valid;
      ghost var t := View();
      var wdObj, existed := NodeOf(path, wd, parentWd, false);
      ghost var n := View()[wd];
      assert n == wdObj.GetNode();
      var alreadyWatching := false;
      if existed && !nonexisting {
        alreadyWatching := HasAppropriateAutoscan(wdObj, location);
      }
      Entering(t, path, wd, parentWd, location, startPoint, nonexisting, n, alreadyWatching);
      UpdatedTwice(t, wd, n, n.(watches := n.watches + [Autoscan(startPoint, location, nonexisting)]));
      if !alreadyWatching {
        AppendWatch(wd, wdObj, Autoscan(startPoint, location, nonexisting));
      }
    }

    /** The loop over one watch list, and whether the kernel is to drop the descriptor. */
    static method DropMoves(wdObj: Wd, wd: int) returns (toRemove: bool)
      modifies wdObj`wdWatches
      ensures wdObj.wdWatches == MovesDropped(old(wdObj.wdWatches), 0, wd)
      ensures toRemove <==> old(wdObj.wdWatches) == [Move(wd)]
    {
      toRemove := false;
      var i := 0;
      while i < |wdObj.wdWatches|
        invariant 0 <= i
        invariant MovesDropped(wdObj.wdWatches, i, wd) == MovesDropped(old(wdObj.wdWatches), 0, wd)
        invariant i == 0 ==> wdObj.wdWatches == old(wdObj.wdWatches)
        invariant toRemove <==> i > 0 && old(wdObj.wdWatches) == [Move(wd)]
        invariant i > 0 && |old(wdObj.wdWatches)| == 1 ==> wdObj.wdWatches == old(wdObj.wdWatches)
        invariant i > 0 ==> |wdObj.wdWatches| + i >= |old(wdObj.wdWatches)|
        decreases |wdObj.wdWatches| - i
      {
        if wdObj.wdWatches[i] == Move(wd) {
          if |wdObj.wdWatches| == 1 {
            toRemove := true;
          } else {
            wdObj.wdWatches := RemoveUnordered(wdObj.wdWatches, i);
          }
        }
        i := i + 1;
      }
    }

    /** The climb's visit of one descriptor. */
    method Visit(checkWd: int, wdObj: Wd, wd: int) returns (toRemove: bool)
      requires Valid() && checkWd in watches && watches[checkWd] == wdObj
      modifies wdObj`wdWatches
      ensures Valid() && watches == old(watches)
      ensures View() ==
        var t := old(View()); t[checkWd := t[checkWd].(watches := MovesDropped(t[checkWd].watches, 0, wd))]
      ensures toRemove <==> old(View())[checkWd].watches == [Move(wd)]
    {
      hide MovesDropped, NodesOf;
      ghost var t := View();
      assert forall k :: k in watches && k != checkWd ==> watches[k] != wdObj;
      toRemove := DropMoves(wdObj, wd);
      assert View() == t[checkWd := wdObj.GetNode()];
    }

    /** The climb.  It ends because every step goes to the parent directory of the one before.  `removed`
        are the descriptors that the kernel is told to drop: those with no other watch. */
    method RemoveWatchMoves(wd: int, ghost names: Names) returns (removed: set<int>)
      requires Valid() && TableOk(names, View())
      modifies (set k | k in watches :: watches[k])`wdWatches
      ensures Valid() && TableOk(names, old(View())) && View() == RemoveMoves(names, old(View()), wd)
      ensures removed == MovesOnly(old(View()), Climb(names, old(View()), wd), wd)
    {
      hide Climb, MovesDropped, TableOk, NodesOf, MovesOnly, RemoveMoves, Climbing;
      ghost var t := View();
      ghost var done := [];
      removed := {};
      NothingRemoved(t, wd);
      ClimbOfUnknown(names, t, wd);
      var first := true;
      var checkWd := wd;
      while checkWd in watches
        invariant Valid() && watches == old(watches)
        invariant TableOk(names, t) && View().Keys == t.Keys
        invariant removed == MovesOnly(t, done, wd)
        invariant if first then checkWd == wd && View() == t && done == []
                  else checkWd >= 0 && wd in t && Climbing(names, t, View(), wd, checkWd, done)
        decreases if checkWd in t then |t[checkWd].path| + 1 else 0
      {
        var wdObj := watches[checkWd];
        ghost var now := View();
        ClimbStep(names, t, checkWd);
        if first {
          first := false;
          ClimbBegins(names, t, wd);
        } else {
          ClimbGoesOn(names, t, now, wd, checkWd, done);
          var toRemove := Visit(checkWd, wdObj, wd);
          MovesOnlySnoc(t, done, checkWd, wd);
          done := done + [checkWd];
          if toRemove {
            removed := removed + {checkWd};
          }
        }
        checkWd := wdObj.parentWd;
        if checkWd < 0 {
          break;
        }
      }
      if !first {
        ClimbEnds(names, t, View(), wd, checkWd, done);
      }
    }

    /** The kernel has dropped a descriptor: its move watches go, and then its node. */
    method Ignored(wd: int, ghost names: Names)
      requires Valid() && TableOk(names, View())
      modifies this, (set k | k in watches :: watches[k])`wdWatches
      ensures Valid() && TableOk(names, old(View()))
      ensures View() == Step(names, old(View()), Op.Ignored(wd))
    {
      hide NodesOf, TableOk, Climb, RemoveMoves, MovesOnly, Step;
      StepIgnored(names, View(), wd);
      if wd !in watches {
        return;
      }
      var removed := RemoveWatchMoves(wd, names);
      ghost var t := View();
      watches := watches - {wd};
      assert View() == t - {wd};
    }
  }

  lemma Entering(t: Table, path: Path, wd: int, parentWd: int, location: string, startPoint: bool,
                 nonexisting: bool, n: Node, already: bool)
    requires n == if wd !in t then Node(path, parentWd, [])
                  else if parentWd >= 0 && t[wd].parentWd < 0 then t[wd].(parentWd := parentWd) else t[wd]
    requires already <==> wd in t && !nonexisting && HasAppropriate(n.watches, location)
    ensures Enter(t, path, wd, parentWd, location, startPoint, nonexisting) ==
            t[wd := if already then n else n.(watches := n.watches + [Autoscan(startPoint, location, nonexisting)])]
  {
  }

  lemma UpdatedTwice(t: Table, wd: int, n: Node, m: Node)
    ensures t[wd := n][wd := m] == t[wd := m]
  {
  }

  lemma StepIgnored(names: Names, t: Table, wd: int)
    requires TableOk(names, t)
    ensures Step(names, t, Op.Ignored(wd)) == if wd in t then RemoveMoves(names, t, wd) - {wd} else t
  {
  }

  /** The descriptors among `ks` that have no watch but a move watch for `wd`. */
  function MovesOnly(t: Table, ks: seq<int>, wd: int): set<int> {
    set k | k in ks && k in t && t[k].watches == [Move(wd)]
  }

  lemma MovesOnlySnoc(t: Table, ks: seq<int>, k: int, wd: int)
    requires k in t
    ensures MovesOnly(t, ks + [k], wd) == MovesOnly(t, ks, wd) + if t[k].watches == [Move(wd)] then {k} else {}
  {
  }

  /** What the climb still visits when it stands before `wd`. */
  ghost function FromHere(names: Names, t: Table, wd: int): (r: seq<int>)
    requires TableOk(names, t)
    ensures forall k :: k in r ==> k in t
  {
    if wd < 0 || wd !in t then [] else [wd] + Climb(names, t, wd)
  }

  lemma ClimbStep(names: Names, t: Table, wd: int)
    requires TableOk(names, t) && wd in t
    ensures Climb(names, t, wd) == FromHere(names, t, t[wd].parentWd)
    ensures var up := t[wd].parentWd; up >= 0 && up in t ==> |t[up].path| < |t[wd].path|
  {
    var up := t[wd].parentWd;
    assert NodeOk(names, wd, t[wd]);
    if up in t {
      assert NodeOk(names, up, t[up]);
    }
  }

  /** From the directory of `wd` upwards nothing has changed yet. */
  ghost predicate Untouched(t: Table, now: Table, wd: int) {
    wd >= 0 && wd in t ==> forall k :: k in t && |t[k].path| <= |t[wd].path| ==> k in now && now[k] == t[k]
  }

  /** The climb from `wd` has visited `done` and stands before `at`; `now` is the table that has become of
      `t`. */
  ghost predicate Climbing(names: Names, t: Table, now: Table, wd: int, at: int, done: seq<int>)
    requires TableOk(names, t)
  {
    var rest := FromHere(names, t, at);
    && now.Keys == t.Keys && (forall k :: k in t ==> now[k].parentWd == t[k].parentWd)
    && Climb(names, t, wd) == done + rest
    && DropAt(now, rest, wd) == RemoveMoves(names, t, wd)
    && Untouched(t, now, at)
  }

  lemma ClimbBegins(names: Names, t: Table, wd: int)
    requires TableOk(names, t) && wd in t
    ensures Climbing(names, t, t, wd, t[wd].parentWd, [])
  {
    hide TableOk, Climb;
    ClimbStep(names, t, wd);
    assert [] + Climb(names, t, wd) == Climb(names, t, wd);
  }

  lemma ClimbGoesOn(names: Names, t: Table, now: Table, wd: int, at: int, done: seq<int>)
    requires TableOk(names, t) && at >= 0 && at in t && Climbing(names, t, now, wd, at, done)
    ensures at in now && now[at] == t[at]
    ensures var later := now[at := now[at].(watches := MovesDropped(now[at].watches, 0, wd))];
      Climbing(names, t, later, wd, t[at].parentWd, done + [at])
  {
    hide TableOk, Climb, MovesDropped, DropAt, RemoveMoves;
    ClimbStep(names, t, at);
    var rest := FromHere(names, t, at);
    DropAtStep(now, rest, wd);
    assert done + ([at] + rest[1..]) == (done + [at]) + rest[1..];
  }

  lemma ClimbEnds(names: Names, t: Table, now: Table, wd: int, at: int, done: seq<int>)
    requires TableOk(names, t) && (at < 0 || at !in t) && Climbing(names, t, now, wd, at, done)
    ensures now == RemoveMoves(names, t, wd) && Climb(names, t, wd) == done
  {
    hide TableOk, Climb, RemoveMoves;
    assert done + [] == done;
  }

  lemma NothingRemoved(t: Table, wd: int)
    ensures MovesOnly(t, [], wd) == {}
  {
  }

  lemma ClimbOfUnknown(names: Names, t: Table, wd: int)
    requires TableOk(names, t)
    ensures wd !in t ==> Climb(names, t, wd) == [] && RemoveMoves(names, t, wd) == t
  {
  }

  lemma DropAtStep(t: Table, visited: seq<int>, wd: int)
    requires visited != [] && forall k :: k in visited ==> k in t
    ensures var k := visited[0];
      DropAt(t, visited, wd) == DropAt(t[k := t[k].(watches := MovesDropped(t[k].watches, 0, wd))], visited[1..], wd)
  {
  }
}
