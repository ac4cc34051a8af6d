/** The rescan of one directory (_rescanDirectory), not recursive, that runs to its end.

    Storage is a map between the names of the container's items and their IDs; an insertion takes a
    fresh ID.  The file system is the list of entries that readdir yields, with what stat says. */
module Rescan {
  import opened Wrappers
  import opened Autoscan

  datatype Kind = Unreadable | Regular(mtime: int) | Special

  datatype Entry = Entry(name: string, kind: Kind)

  /** The autoscan's options, the name of the server's own configuration file if it lies here, and which
      files the import accepts. */
  datatype Setup = Setup(level: ScanLevel, hidden: bool, configName: Option<string>, importable: string -> bool)

  datatype State = State(ids: map<string, int>, nextID: int, leftover: set<int>, highest: int)

  predicate Considered(u: Setup, e: Entry) {
    e.name != "" && e.name != "." && e.name != ".." && (u.hidden || e.name[0] != '.') && e.kind.Regular?
  }

  predicate Accepted(u: Setup, name: string) {
    u.importable(name) && u.configName != Some(name)
  }

  function Max(a: int, b: int): int {
    if a < b then b else a
  }

  // ---- one pass of the loop ----

  /** addFileInternal for a path that storage does not know. */
  function Add(u: Setup, s: State, name: string): State {
    if Accepted(u, name) then s.(ids := s.ids[name := s.nextID], nextID := s.nextID + 1) else s
  }

  /** A known file is taken off the list of leftovers; a full scan removes and adds it again when it is
      newer than everything this pass has seen so far.  An unknown file is added. */
  function Step(u: Setup, s: State, e: Entry): State {
    if !Considered(u, e) then s
    else if e.name in s.ids then
      var s1 := s.(leftover := s.leftover - {s.ids[e.name]});
      if u.level == Full && s.highest < e.kind.mtime then
        Add(u, s1.(ids := s1.ids - {e.name}), e.name).(highest := e.kind.mtime)
      else s1
    else if u.configName == Some(e.name) then s
    else Add(u, s, e.name).(highest := Max(s.highest, e.kind.mtime))
  }

  function Begin(ids: map<string, int>, nextID: int, baseline: int): State {
    State(ids, nextID, ids.Values, baseline)
  }

  /** The state after the first `n` entries. */
  function Scan(u: Setup, s: State, entries: seq<Entry>, n: nat): State
    requires n <= |entries|
  {
    if n == 0 then s else Step(u, Scan(u, s, entries, n - 1), entries[n - 1])
  }

  /** The end: what is left over is deleted. */
  function Finish(s: State): map<string, int> {
    map name | name in s.ids && s.ids[name] !in s.leftover :: s.ids[name]
  }

  // ---- what the pass does ----

  ghost predicate StorageOk(ids: map<string, int>, nextID: int) {
    && 0 < nextID && (forall x :: x in ids ==> 0 < ids[x] < nextID)
    && (forall x, y :: x in ids && y in ids && ids[x] == ids[y] ==> x == y)
  }

  ghost predicate DistinctNames(entries: seq<Entry>) {
    forall i, j :: 0 <= i < j < |entries| ==> entries[i].name != entries[j].name
  }

  /** The highest time that the pass has seen before entry `n`: the baseline, raised by every file that
      was added, or was tried to be added. */
  function HighestBefore(u: Setup, ids: map<string, int>, baseline: int, entries: seq<Entry>, n: nat): int
    requires n <= |entries|
  {
    if n == 0 then baseline
    else
      var h, e := HighestBefore(u, ids, baseline, entries, n - 1), entries[n - 1];
      if !Considered(u, e) then h
      else if e.name in ids then (if u.level == Full && h < e.kind.mtime then e.kind.mtime else h)
      else if u.configName == Some(e.name) then h
      else Max(h, e.kind.mtime)
  }

  /** A full scan adds entry `i` again. */
  predicate Readded(u: Setup, ids: map<string, int>, baseline: int, entries: seq<Entry>, i: nat)
    requires i < |entries| && Considered(u, entries[i])
  {
    u.level == Full && entries[i].name in ids && HighestBefore(u, ids, baseline, entries, i) < entries[i].kind.mtime
  }

  /** After the pass the file of entry `i` is in the database. */
  predicate Mirrored(u: Setup, ids: map<string, int>, baseline: int, entries: seq<Entry>, i: nat)
    requires i < |entries|
  {
    && Considered(u, entries[i])
    && (if entries[i].name in ids then Readded(u, ids, baseline, entries, i) ==> Accepted(u, entries[i].name)
        else Accepted(u, entries[i].name))
  }

  /** One of the first `n` entries has this name. */
  predicate Listed(entries: seq<Entry>, n: nat, name: string)
    requires n <= |entries|
  {
    exists i :: 0 <= i < n && entries[i].name == name
  }

  ghost predicate Inv(u: Setup, ids: map<string, int>, nextID: int, baseline: int, entries: seq<Entry>, n: nat,
                      s: State)
    requires n <= |entries|
  {
    && StorageOk(s.ids, s.nextID) && nextID <= s.nextID
    && s.highest == HighestBefore(u, ids, baseline, entries, n)
    // names not yet reached are as they were
    && (forall x :: !Listed(entries, n, x) ==> (x in s.ids <==> x in ids) && (x in ids ==> s.ids[x] == ids[x]))
    // names reached
    && (forall i :: 0 <= i < n ==> EntryOk(u, ids, nextID, baseline, entries, i, s))
    // leftovers are old IDs of names that were not met
    && (forall id :: id in s.leftover <==> exists x :: x in ids && ids[x] == id && Unmet(u, entries, n, x))
  }

  predicate Unmet(u: Setup, entries: seq<Entry>, n: nat, name: string)
    requires n <= |entries|
  {
    forall i :: 0 <= i < n && entries[i].name == name ==> !Considered(u, entries[i])
  }

  ghost predicate EntryOk(u: Setup, ids: map<string, int>, nextID: int, baseline: int, entries: seq<Entry>, i: nat,
                          s: State)
    requires i < |entries|
  {
    var x := entries[i].name;
    if !Considered(u, entries[i]) then (x in s.ids <==> x in ids) && (x in ids ==> s.ids[x] == ids[x])
    else
      && (x in s.ids <==> Mirrored(u, ids, baseline, entries, i))
      && (x in s.ids ==>
            if x in ids && !Readded(u, ids, baseline, entries, i) then s.ids[x] == ids[x] else s.ids[x] >= nextID)
  }

  lemma NotListed(entries: seq<Entry>, n: nat)
    requires DistinctNames(entries) && n < |entries|
    ensures !Listed(entries, n, entries[n].name)
    ensures forall x :: Listed(entries, n + 1, x) <==> Listed(entries, n, x) || x == entries[n].name
  {
    forall x | Listed(entries, n + 1, x)
      ensures Listed(entries, n, x) || x == entries[n].name
    {
      var i :| 0 <= i < n + 1 && entries[i].name == x;
      assert i < n ==> Listed(entries, n, x);
    }
    forall x | Listed(entries, n, x) || x == entries[n].name
      ensures Listed(entries, n + 1, x)
    {
      assert x == entries[n].name ==> entries[n].name == x;
    }
  }

  /** One pass changes nothing but its own name, and new IDs are fresh. */
  lemma StepIds(u: Setup, s: State, e: Entry)
    requires StorageOk(s.ids, s.nextID)
    ensures var r := Step(u, s, e);
      && StorageOk(r.ids, r.nextID) && s.nextID <= r.nextID
      && (forall x :: x != e.name ==> (x in r.ids <==> x in s.ids) && (x in s.ids ==> r.ids[x] == s.ids[x]))
  {
  }

  lemma StepEntry(u: Setup, ids: map<string, int>, nextID: int, baseline: int, entries: seq<Entry>, n: nat, s: State)
    requires n < |entries| && DistinctNames(entries) && StorageOk(ids, nextID)
    requires Inv(u, ids, nextID, baseline, entries, n, s)
    ensures EntryOk(u, ids, nextID, baseline, entries, n, Step(u, s, entries[n]))
    ensures Step(u, s, entries[n]).highest == HighestBefore(u, ids, baseline, entries, n + 1)
  {
    NotListed(entries, n);
  }

  lemma UnmetStep(u: Setup, entries: seq<Entry>, n: nat, x: string)
    requires n < |entries|
    ensures Unmet(u, entries, n + 1, x) <==>
              Unmet(u, entries, n, x) && (x == entries[n].name ==> !Considered(u, entries[n]))
  {
  }

  lemma LeftoverAfter(u: Setup, s: State, e: Entry)
    ensures Step(u, s, e).leftover ==
              s.leftover - if Considered(u, e) && e.name in s.ids then {s.ids[e.name]} else {}
  {
  }

  lemma StepLeftover(u: Setup, ids: map<string, int>, nextID: int, baseline: int, entries: seq<Entry>, n: nat,
                     s: State, id: int)
    requires n < |entries| && DistinctNames(entries) && StorageOk(ids, nextID)
    requires Inv(u, ids, nextID, baseline, entries, n, s)
    ensures id in Step(u, s, entries[n]).leftover <==>
              exists x :: x in ids && ids[x] == id && Unmet(u, entries, n + 1, x)
  {
    hide Step, HighestBefore, EntryOk, Unmet, Listed, Considered;
    NotListed(entries, n);
    var r, e := Step(u, s, entries[n]), entries[n];
    LeftoverAfter(u, s, e);
    if id in r.leftover {
      var x :| x in ids && ids[x] == id && Unmet(u, entries, n, x);
      UnmetStep(u, entries, n, x);
    }
    if x :| x in ids && ids[x] == id && Unmet(u, entries, n + 1, x) {
      UnmetStep(u, entries, n, x);
    }
  }

  lemma StepKeepsInv(u: Setup, ids: map<string, int>, nextID: int, baseline: int, entries: seq<Entry>, n: nat, s: State)
    requires n < |entries| && DistinctNames(entries) && StorageOk(ids, nextID)
    requires Inv(u, ids, nextID, baseline, entries, n, s)
    ensures Inv(u, ids, nextID, baseline, entries, n + 1, Step(u, s, entries[n]))
  {
    hide Step, HighestBefore, Mirrored, Readded, StorageOk, Unmet, Listed, Considered;
    var r := Step(u, s, entries[n]);
    NotListed(entries, n);
    StepIds(u, s, entries[n]);
    StepEntry(u, ids, nextID, baseline, entries, n, s);
    forall id
      ensures id in r.leftover <==> exists x :: x in ids && ids[x] == id && Unmet(u, entries, n + 1, x)
    {
      StepLeftover(u, ids, nextID, baseline, entries, n, s, id);
    }
    forall i | 0 <= i < n
      ensures EntryOk(u, ids, nextID, baseline, entries, i, r)
    {
      assert EntryOk(u, ids, nextID, baseline, entries, i, s);
      assert entries[i].name != entries[n].name;
    }
  }

  lemma BeginInv(u: Setup, ids: map<string, int>, nextID: int, baseline: int, entries: seq<Entry>)
    requires StorageOk(ids, nextID)
    ensures Inv(u, ids, nextID, baseline, entries, 0, Begin(ids, nextID, baseline))
  {
    assert forall x :: !Listed(entries, 0, x) && Unmet(u, entries, 0, x);
  }

  lemma {:induction false} ScanInv(u: Setup, ids: map<string, int>, nextID: int, baseline: int,
                                   entries: seq<Entry>, n: nat)
    requires n <= |entries| && DistinctNames(entries) && StorageOk(ids, nextID)
    ensures Inv(u, ids, nextID, baseline, entries, n, Scan(u, Begin(ids, nextID, baseline), entries, n))
  {
    hide Inv, Step, Begin;
    if n == 0 {
      BeginInv(u, ids, nextID, baseline, entries);
    } else {
      ScanInv(u, ids, nextID, baseline, entries, n - 1);
      StepKeepsInv(u, ids, nextID, baseline, entries, n - 1, Scan(u, Begin(ids, nextID, baseline), entries, n - 1));
    }
  }

  function Rescanned(u: Setup, ids: map<string, int>, nextID: int, baseline: int, entries: seq<Entry>)
    : map<string, int>
  {
    Finish(Scan(u, Begin(ids, nextID, baseline), entries, |entries|))
  }

  /** The mirror: a name is in the database afterwards exactly when the directory has a visible regular
      file of that name that was known, and not refused when it was added again, or is accepted. */
  lemma RescanMirrors(u: Setup, ids: map<string, int>, nextID: int, baseline: int, entries: seq<Entry>, name: string)
    requires DistinctNames(entries) && StorageOk(ids, nextID)
    ensures name in Rescanned(u, ids, nextID, baseline, entries) <==>
            exists i :: 0 <= i < |entries| && entries[i].name == name && Mirrored(u, ids, baseline, entries, i)
  {
    hide Scan, Begin, Mirrored, Readded, HighestBefore, Considered;
    var n := |entries|;
    var s := Scan(u, Begin(ids, nextID, baseline), entries, n);
    ScanInv(u, ids, nextID, baseline, entries, n);
    if Listed(entries, n, name) {
      var i :| 0 <= i < n && entries[i].name == name;
      ListedFate(u, ids, nextID, baseline, entries, i, s);
    } else {
      assert Unmet(u, entries, n, name);
    }
  }

  /** A listed name. */
  lemma ListedFate(u: Setup, ids: map<string, int>, nextID: int, baseline: int, entries: seq<Entry>, i: nat, s: State)
    requires i < |entries| && DistinctNames(entries) && StorageOk(ids, nextID)
    requires Inv(u, ids, nextID, baseline, entries, |entries|, s)
    ensures entries[i].name in Finish(s) <==> Mirrored(u, ids, baseline, entries, i)
    ensures forall j :: 0 <= j < |entries| && entries[j].name == entries[i].name ==> j == i
  {
    hide Readded, HighestBefore;
    var n, x := |entries|, entries[i].name;
    assert EntryOk(u, ids, nextID, baseline, entries, i, s);
    if !Considered(u, entries[i]) {
      assert Unmet(u, entries, n, x);
      assert x in ids ==> s.ids[x] in s.leftover;
    } else {
      assert !Unmet(u, entries, n, x);
    }
  }

  lemma VisibleRegularFiles(u: Setup, entries: seq<Entry>, name: string)
    ensures (exists i :: 0 <= i < |entries| && entries[i].name == name && Considered(u, entries[i])) <==>
            && name != "" && name != "." && name != ".." && (name[0] == '.' ==> u.hidden)
            && (exists i :: 0 <= i < |entries| && entries[i].name == name && entries[i].kind.Regular?)
    ensures Accepted(u, name) <==> u.importable(name) && u.configName != Some(name)
  {
    if i :| 0 <= i < |entries| && entries[i].name == name && Considered(u, entries[i]) {
      assert entries[i].kind.Regular?;
    }
    if name != "" && name != "." && name != ".." && (name[0] == '.' ==> u.hidden) {
      forall i | 0 <= i < |entries| && entries[i].name == name && entries[i].kind.Regular?
        ensures Considered(u, entries[i])
      {
      }
    }
  }

  /** A basic scan: exactly the visible regular files that were known or are accepted. */
  lemma BasicRescanMirrors(u: Setup, ids: map<string, int>, nextID: int, baseline: int, entries: seq<Entry>,
                           name: string)
    requires DistinctNames(entries) && StorageOk(ids, nextID) && u.level == Basic
    ensures name in Rescanned(u, ids, nextID, baseline, entries) <==>
            exists i :: 0 <= i < |entries| && entries[i].name == name && Considered(u, entries[i]) &&
              (name in ids || Accepted(u, name))
    // in full
    ensures name in Rescanned(u, ids, nextID, baseline, entries) <==>
            && name != "" && name != "." && name != ".." && (name[0] == '.' ==> u.hidden)
            && (exists i :: 0 <= i < |entries| && entries[i].name == name && entries[i].kind.Regular?)
            && (name in ids || (u.importable(name) && u.configName != Some(name)))
  {
    VisibleRegularFiles(u, entries, name);
    hide Rescanned, StorageOk, DistinctNames, HighestBefore, Considered, Accepted;
    RescanMirrors(u, ids, nextID, baseline, entries, name);
    if i :| 0 <= i < |entries| && entries[i].name == name && Mirrored(u, ids, baseline, entries, i) {
      assert Considered(u, entries[i]);
    }
    if i :| 0 <= i < |entries| && entries[i].name == name && Considered(u, entries[i]) &&
            (name in ids || Accepted(u, name)) {
      assert Mirrored(u, ids, baseline, entries, i);
    }
  }

  /** A file keeps its ID unless it was added in this pass, and then it has one that storage never gave
      out before; so the IDs that are deleted at the end, which are old ones, never hit it. */
  lemma RescanIds(u: Setup, ids: map<string, int>, nextID: int, baseline: int, entries: seq<Entry>, name: string)
    requires DistinctNames(entries) && StorageOk(ids, nextID)
    ensures var r := Rescanned(u, ids, nextID, baseline, entries);
      var s := Scan(u, Begin(ids, nextID, baseline), entries, |entries|);
      && StorageOk(r, s.nextID)
      && (name in r ==> (name in ids && r[name] == ids[name]) || nextID <= r[name] < s.nextID)
      && (forall id :: id in s.leftover ==> 0 < id < nextID)
  {
    hide Scan, Begin, Mirrored, Readded, HighestBefore, Considered;
    var n := |entries|;
    var s := Scan(u, Begin(ids, nextID, baseline), entries, n);
    ScanInv(u, ids, nextID, baseline, entries, n);
    if Listed(entries, n, name) {
      var i :| 0 <= i < n && entries[i].name == name;
      assert EntryOk(u, ids, nextID, baseline, entries, i, s);
    }
  }

  /** A known file that is newer than the baseline but no longer accepted is removed and not added again. */
  lemma RefusedFileIsLost(u: Setup, name: string, id: int, baseline: int, mtime: int)
    requires u.level == Full && !Accepted(u, name) && baseline < mtime && id > 0
    requires Considered(u, Entry(name, Regular(mtime)))
    ensures name !in Rescanned(u, map[name := id], id + 1, baseline, [Entry(name, Regular(mtime))])
  {
    var entries := [Entry(name, Regular(mtime))];
    var s := Begin(map[name := id], id + 1, baseline);
    assert Scan(u, s, entries, 0) == s;
    assert name !in Scan(u, s, entries, 1).ids;
  }

  /** The time that the pass reports. */
  lemma {:induction false} HighestIsMonotonic(u: Setup, ids: map<string, int>, baseline: int,
                                              entries: seq<Entry>, m: nat, n: nat)
    requires m <= n <= |entries|
    ensures HighestBefore(u, ids, baseline, entries, m) <= HighestBefore(u, ids, baseline, entries, n)
    ensures baseline <= HighestBefore(u, ids, baseline, entries, n)
  {
    hide Considered;
    if n > 0 {
      HighestIsMonotonic(u, ids, baseline, entries, if m < n then m else n - 1, n - 1);
    }
  }

  /** The files whose times a full scan takes into account: all it considers, except the server's own
      configuration file while it is unknown. */
  predicate Counts(u: Setup, ids: map<string, int>, e: Entry) {
    Considered(u, e) && (e.name in ids || u.configName != Some(e.name))
  }

  /** In a full scan the highest time is the maximum of the baseline and those times. */
  lemma {:induction false} HighestIsMaximum(u: Setup, ids: map<string, int>, baseline: int, entries: seq<Entry>, n: nat)
    requires n <= |entries| && u.level == Full
    ensures var h := HighestBefore(u, ids, baseline, entries, n);
      && baseline <= h && (forall j :: 0 <= j < n && Counts(u, ids, entries[j]) ==> entries[j].kind.mtime <= h)
      && (h == baseline || exists j :: 0 <= j < n && Counts(u, ids, entries[j]) && entries[j].kind.mtime == h)
  {
    hide Considered;
    if n > 0 {
      HighestIsMaximum(u, ids, baseline, entries, n - 1);
    }
  }

  /** A full scan adds a known file again exactly when it is newer than the baseline and than every file
      listed before it that counts. */
  lemma ReaddedIsNewer(u: Setup, ids: map<string, int>, baseline: int, entries: seq<Entry>, i: nat)
    requires i < |entries| && Considered(u, entries[i])
    ensures Readded(u, ids, baseline, entries, i) <==>
              && u.level == Full && entries[i].name in ids && baseline < entries[i].kind.mtime
              && forall j :: 0 <= j < i && Counts(u, ids, entries[j]) ==> entries[j].kind.mtime < entries[i].kind.mtime
  {
    hide HighestBefore;
    if u.level == Full {
      HighestIsMaximum(u, ids, baseline, entries, i);
    }
  }

  /** The first full rescan after new options.  If the directory has become recursive, it adds every known file
      with a time after zero again that is newer than those before it; if nothing restarts, only files that
      are also newer than the old baseline. */
  lemma RescanWithNewOptions(s: Settings, o: Options, u: Setup, ids: map<string, int>, entries: seq<Entry>, i: nat)
    requires i < |entries| && Considered(u, entries[i]) && entries[i].name in ids && u.level == Full == o.level
    ensures var base := if s.options.level == Full && !s.options.recursive && o.recursive then 0 else s.previousLMT;
      Readded(u, ids, Updated(s, o).previousLMT, entries, i) <==>
        && base < entries[i].kind.mtime
        && forall j :: 0 <= j < i && Counts(u, ids, entries[j]) ==> entries[j].kind.mtime < entries[i].kind.mtime
  {
    hide Readded, Counts, Considered;
    ReaddedIsNewer(u, ids, Updated(s, o).previousLMT, entries, i);
  }

  /** After a change from full to basic and back, too. */
  lemma BackToFullRestarts(s: Settings, basic: Options, full: Options)
    requires s.options.level == Full && basic.level == Basic && full.level == Full
    ensures Updated(Updated(s, basic), full).previousLMT == 0 == Updated(Updated(s, basic), full).currentLMT
  {
  }

  // ---- the method ----

  /** The part of storage that a rescan of one container uses. */
  class Storage {
    var ids: map<string, int>
    var nextID: int

    constructor (ids: map<string, int>, nextID: int)
      ensures this.ids == ids && this.nextID == nextID
    {
      this.ids, this.nextID := ids, nextID;
    }

    method FindObjectIDByPath(name: string) returns (id: int)
      requires StorageOk(ids, nextID)
      ensures if name in ids then id == ids[name] > 0 else id == INVALID_OBJECT_ID
    {
      id := if name in ids then ids[name] else INVALID_OBJECT_ID;
    }

    method RemoveObject(name: string)
      modifies this`ids
      ensures ids == old(ids) - {name}
    {
      ids := ids - {name};
    }

    method Insert(name: string)
      modifies this
      ensures ids == old(ids)[name := old(nextID)] && nextID == old(nextID) + 1
    {
      ids := ids[name := nextID];
      nextID := nextID + 1;
    }

    method RemoveObjects(gone: set<int>)
      modifies this`ids
      ensures ids == map name | name in old(ids) && old(ids)[name] !in gone :: old(ids)[name]
    {
      ids := map name | name in ids && ids[name] !in gone :: ids[name];
    }
  }

  method AddFile(u: Setup, storage: Storage, name: string)
    modifies storage
    ensures storage.ids == if Accepted(u, name) then old(storage.ids)[name := old(storage.nextID)] else old(storage.ids)
    ensures storage.nextID == old(storage.nextID) + if Accepted(u, name) then 1 else 0
  {
    if u.configName == Some(name) {
      return;
    }
    if u.importable(name) {
      storage.Insert(name);
    }
  }

  /** The loop over the directory, and the deletion of what is left over. */
  method RescanDirectory(u: Setup, storage: Storage, entries: seq<Entry>, baseline: int) returns (highest: int)
    requires StorageOk(storage.ids, storage.nextID)
    modifies storage
    ensures storage.ids == Rescanned(u, old(storage.ids), old(storage.nextID), baseline, entries)
    ensures highest == Scan(u, Begin(old(storage.ids), old(storage.nextID), baseline), entries, |entries|).highest
    ensures StorageOk(storage.ids, storage.nextID)
  {
    hide StorageOk, Accepted, Scan, Considered, Step;
    ghost var s := Begin(storage.ids, storage.nextID, baseline);
    ScanStart(u, s, entries);
    var list := storage.ids.Values;
    highest := baseline;
    var i := 0;
    while i < |entries|
      invariant 0 <= i <= |entries| && StorageOk(storage.ids, storage.nextID)
      invariant State(storage.ids, storage.nextID, list, highest) == Scan(u, s, entries, i)
    {
      ScanStep(u, s, entries, i);
      StepIds(u, Scan(u, s, entries, i), entries[i]);
      list, highest := RescanEntry(u, storage, entries[i], list, highest);
      i := i + 1;
    }
    FewerIds(storage.ids, storage.nextID, list);
    if list != {} {
      storage.RemoveObjects(list);
    }
  }

  /** One entry of the directory. */
  method RescanEntry(u: Setup, storage: Storage, e: Entry, left: set<int>, before: int)
    returns (list: set<int>, highest: int)
    requires StorageOk(storage.ids, storage.nextID)
    modifies storage
    ensures State(storage.ids, storage.nextID, list, highest) ==
            Step(u, State(old(storage.ids), old(storage.nextID), left, before), e)
  {
    hide StorageOk;
    list, highest := left, before;
    if !Considered(u, e) {
      return;
    }
    var objectID := storage.FindObjectIDByPath(e.name);
    if objectID > 0 {
      list := list - {objectID};
      if u.level == Full {
        if highest < e.kind.mtime {
          storage.RemoveObject(e.name);
          AddFile(u, storage, e.name);
          highest := e.kind.mtime;
        }
      }
    } else if u.configName != Some(e.name) {
      AddFile(u, storage, e.name);
      if highest < e.kind.mtime {
        highest := e.kind.mtime;
      }
    }
  }

  lemma ScanStart(u: Setup, s: State, entries: seq<Entry>)
    ensures Scan(u, s, entries, 0) == s
  {
  }

  lemma ScanStep(u: Setup, s: State, entries: seq<Entry>, i: nat)
    requires i < |entries|
    ensures Scan(u, s, entries, i + 1) == Step(u, Scan(u, s, entries, i), entries[i])
  {
  }

  lemma FewerIds(ids: map<string, int>, nextID: int, gone: set<int>)
    requires StorageOk(ids, nextID)
    ensures StorageOk(map name | name in ids && ids[name] !in gone :: ids[name], nextID)
  {
  }
}
