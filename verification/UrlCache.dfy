/** The bounded cache of resolved URLs (CachedURL and the URL cache of the content manager). */
module UrlCache {
  import opened Arrays
  import opened Wrappers

  const MAX_CACHED_URLS := 20
  const URL_CACHE_LIFETIME := 600

  datatype Entry = Entry(objectID: int, url: string, lastAccess: int)

  // ---- the cache as a value ----

  function FindObject(s: seq<Entry>, objectID: int): (k: int)
    ensures -1 <= k < |s|
    ensures k >= 0 ==> s[k].objectID == objectID
    ensures forall i :: 0 <= i < (if k >= 0 then k else |s|) ==> s[i].objectID != objectID
  {
    if s == [] then -1
    else if s[0].objectID == objectID then 0
    else
      var k := FindObject(s[1..], objectID);
      if k >= 0 then k + 1 else -1
  }

  /** The replacement candidate among the first `n` entries: the first of those accessed longest ago,
      provided that this was before `now`. */
  function Victim(s: seq<Entry>, n: nat, now: int): (v: int)
    requires n <= |s|
    ensures -1 <= v < n
    ensures v >= 0 ==> s[v].lastAccess < now && forall j :: 0 <= j < n ==> s[v].lastAccess <= s[j].lastAccess
    ensures v < 0 ==> forall j :: 0 <= j < n ==> s[j].lastAccess >= now
  {
    if n == 0 then -1
    else
      var v := Victim(s, n - 1, now);
      if s[n - 1].lastAccess < (if v < 0 then now else s[v].lastAccess) then n - 1 else v
  }

  function Cache(s: seq<Entry>, e: Entry, now: int): Result<seq<Entry>, string> {
    var k := FindObject(s, e.objectID);
    if k >= 0 then Ok(s[k := e])
    else if |s| < MAX_CACHED_URLS then Ok(s + [e])
    else
      var v := Victim(s, |s|, now);
      if v >= 0 then Ok(RemoveUnordered(s, v) + [e]) else Err("Index exceeds URL cache size")
  }

  /** A lookup counts as an access. */
  function Touch(s: seq<Entry>, objectID: int, now: int): (r: seq<Entry>)
    ensures |r| == |s|
  {
    var k := FindObject(s, objectID);
    if k >= 0 then s[k := s[k].(lastAccess := now)] else s
  }

  function Lookup(s: seq<Entry>, objectID: int): Option<string> {
    var k := FindObject(s, objectID);
    if k >= 0 then Some(s[k].url) else None
  }

  predicate Expired(e: Entry, now: int) {
    e.lastAccess + URL_CACHE_LIFETIME < now
  }

  /** The sweep from index `i` after `count` passes; the bound is the shrinking size. */
  function SweepFrom(s: seq<Entry>, i: nat, count: nat, now: int): (r: seq<Entry>)
    requires i <= count
    decreases |s| - count
  {
    if count >= |s| then s
    else if Expired(s[i], now) then SweepFrom(RemoveUnordered(s, i), i, count + 1, now)
    else SweepFrom(s, i + 1, count + 1, now)
  }

  lemma SweepFromStep(s: seq<Entry>, i: nat, count: nat, now: int)
    requires i <= count < |s|
    ensures SweepFrom(s, i, count, now) ==
      if Expired(s[i], now) then SweepFrom(RemoveUnordered(s, i), i, count + 1, now)
      else SweepFrom(s, i + 1, count + 1, now)
  {
  }

  lemma SweepFromEnd(s: seq<Entry>, i: nat, count: nat, now: int)
    requires i <= count && count >= |s|
    ensures SweepFrom(s, i, count, now) == s
  {
  }

  function Swept(s: seq<Entry>, now: int): seq<Entry> {
    SweepFrom(s, 0, 0, now)
  }

  // ---- what the sweep removes ----

  function CountExpired(s: seq<Entry>, now: int): (n: nat)
    ensures n <= |s|
  {
    if s == [] then 0
    else CountExpired(s[..|s| - 1], now) + if Expired(s[|s| - 1], now) then 1 else 0
  }

  lemma {:induction false} CountExpiredSplit(a: seq<Entry>, b: seq<Entry>, now: int)
    ensures CountExpired(a + b, now) == CountExpired(a, now) + CountExpired(b, now)
  {
    if b == [] {
      assert a + b == a;
    } else {
      assert (a + b)[..|a + b| - 1] == a + b[..|b| - 1];
      CountExpiredSplit(a, b[..|b| - 1], now);
    }
  }

  lemma PartsCount(a: seq<Entry>, x: Entry, b: seq<Entry>, y: Entry, now: int)
    ensures CountExpired(a + ([x] + (b + [y])), now) ==
            CountExpired(a + ([y] + b), now) + if Expired(x, now) then 1 else 0
  {
    hide CountExpired, Expired;
    CountOne(x, now);
    CountExpiredSplit(a, [y] + b, now);
    CountExpiredSplit([y], b, now);
    CountExpiredSplit(a, [x] + (b + [y]), now);
    CountExpiredSplit([x], b + [y], now);
    CountExpiredSplit(b, [y], now);
  }

  lemma RemoveCounts(s: seq<Entry>, i: nat, now: int)
    requires i < |s|
    ensures CountExpired(s, now) == CountExpired(RemoveUnordered(s, i), now) + if Expired(s[i], now) then 1 else 0
  {
    hide RemoveUnordered, CountExpired, Expired;
    var n := |s| - 1;
    if i < n {
      RemoveInner(s, i);
      PartsCount(s[..i], s[i], s[i + 1..n], s[n], now);
    } else {
      RemoveLast(s);
      CountOne(s[i], now);
      CountExpiredSplit(s[..i], [s[i]], now);
    }
  }

  lemma CountOne(e: Entry, now: int)
    ensures CountExpired([e], now) == if Expired(e, now) then 1 else 0
  {
    assert [e][..0] == [];
  }

  /** `r` keeps the fresh entries of `s`, with their multiplicity, and nothing is new in it. */
  ghost predicate KeepsFresh(s: seq<Entry>, r: seq<Entry>, now: int) {
    multiset(r) <= multiset(s) && forall e :: !Expired(e, now) ==> multiset(r)[e] == multiset(s)[e]
  }

  lemma RemoveKeepsFresh(s: seq<Entry>, i: nat, now: int)
    requires i < |s| && Expired(s[i], now)
    ensures KeepsFresh(s, RemoveUnordered(s, i), now)
  {
    RemoveParts(s, i);
    assert s[i] in s;
  }

  lemma KeepsFreshTransitive(s: seq<Entry>, q: seq<Entry>, r: seq<Entry>, now: int)
    requires KeepsFresh(s, q, now) && KeepsFresh(q, r, now)
    ensures KeepsFresh(s, r, now)
  {
  }

  lemma {:induction false} SweepFromKeepsFresh(s: seq<Entry>, i: nat, count: nat, now: int)
    requires i <= count
    ensures KeepsFresh(s, SweepFrom(s, i, count, now), now)
    decreases |s| - count
  {
    hide RemoveUnordered, KeepsFresh;
    if count >= |s| {
      KeepsFreshItself(s, now);
    } else if Expired(s[i], now) {
      var q := RemoveUnordered(s, i);
      RemoveKeepsFresh(s, i, now);
      SweepFromKeepsFresh(q, i, count + 1, now);
      KeepsFreshTransitive(s, q, SweepFrom(q, i, count + 1, now), now);
    } else {
      SweepFromKeepsFresh(s, i + 1, count + 1, now);
    }
  }

  lemma KeepsFreshItself(s: seq<Entry>, now: int)
    ensures KeepsFresh(s, s, now)
  {
  }

  /** From a point where everything before `i` is fresh and `count` passes led to `i`. */
  lemma {:induction false} SweepFromHalves(s: seq<Entry>, i: nat, count: nat, now: int)
    requires i <= count && i <= |s| && forall j :: 0 <= j < i ==> !Expired(s[j], now)
    ensures var r := SweepFrom(s, i, count, now);
      && 2 * CountExpired(r, now) <= CountExpired(s, now) + count - i
      && |r| - CountExpired(r, now) == |s| - CountExpired(s, now)
    decreases |s| - count
  {
    hide RemoveUnordered, CountExpired;
    if count >= |s| {
      FreshPrefix(s, i, now);
    } else if Expired(s[i], now) {
      RemovePrefix(s, i);
      RemoveCounts(s, i, now);
      SweepFromHalves(RemoveUnordered(s, i), i, count + 1, now);
    } else {
      SweepFromHalves(s, i + 1, count + 1, now);
    }
  }

  lemma RemovePrefix(s: seq<Entry>, i: nat)
    requires i < |s|
    ensures RemoveUnordered(s, i)[..i] == s[..i]
    ensures forall j :: 0 <= j < i ==> RemoveUnordered(s, i)[j] == s[j]
  {
  }

  /** Behind `i` fresh entries at most the rest has expired. */
  lemma FreshPrefix(s: seq<Entry>, i: nat, now: int)
    requires i <= |s| && forall j :: 0 <= j < i ==> !Expired(s[j], now)
    ensures CountExpired(s, now) <= |s| - i
  {
    AllFresh(s[..i], now);
    assert s == s[..i] + s[i..];
    CountExpiredSplit(s[..i], s[i..], now);
  }

  lemma {:induction false} AllFresh(s: seq<Entry>, now: int)
    requires forall j :: 0 <= j < |s| ==> !Expired(s[j], now)
    ensures CountExpired(s, now) == 0
  {
    if s != [] {
      AllFresh(s[..|s| - 1], now);
    }
  }

  /** One sweep removes only expired entries and at least half of them, rounded up. */
  lemma SweepHalves(s: seq<Entry>, now: int)
    ensures KeepsFresh(s, Swept(s, now), now)
    ensures CountExpired(Swept(s, now), now) <= CountExpired(s, now) / 2
    ensures |s| - |Swept(s, now)| == CountExpired(s, now) - CountExpired(Swept(s, now), now)
  {
    SweepFromKeepsFresh(s, 0, 0, now);
    SweepFromHalves(s, 0, 0, now);
  }

  function Pow2(k: nat): nat {
    if k == 0 then 1 else 2 * Pow2(k - 1)
  }

  function Sweeps(s: seq<Entry>, now: int, k: nat): seq<Entry>
    decreases k
  {
    if k == 0 then s else Sweeps(Swept(s, now), now, k - 1)
  }

  /** So repeated sweeps at one time clear all expired entries, and keep the others: k sweeps deal with
      fewer than 2^k of them. */
  lemma {:induction false} SweepsClear(s: seq<Entry>, now: int, k: nat)
    requires CountExpired(s, now) < Pow2(k)
    ensures CountExpired(Sweeps(s, now, k), now) == 0
    ensures KeepsFresh(s, Sweeps(s, now, k), now)
    decreases k
  {
    hide KeepsFresh, Swept, CountExpired;
    if k == 0 {
      KeepsFreshItself(s, now);
    } else {
      SweepHalves(s, now);
      SweepsClear(Swept(s, now), now, k - 1);
      KeepsFreshTransitive(s, Swept(s, now), Sweeps(s, now, k), now);
    }
  }

  lemma {:induction false} AllExpiredFrom(s: seq<Entry>, count: nat, now: int)
    requires count <= |s| && forall j :: 0 <= j < |s| ==> Expired(s[j], now)
    ensures |SweepFrom(s, 0, count, now)| == (|s| + count) / 2
    decreases |s| - count
  {
    if count < |s| {
      var r := RemoveUnordered(s, 0);
      assert forall j :: 0 <= j < |r| ==> Expired(r[j], now);
      if count + 1 <= |r| {
        AllExpiredFrom(r, count + 1, now);
      }
    }
  }

  /** The bound is reached: when everything has expired, one sweep leaves exactly half of the entries,
      rounded down. */
  lemma SweepLeavesHalf(s: seq<Entry>, now: int)
    requires forall j :: 0 <= j < |s| ==> Expired(s[j], now)
    ensures |Swept(s, now)| == |s| / 2
  {
    AllExpiredFrom(s, 0, now);
  }

  // ---- the cache as a map ----

  ghost predicate DistinctObjects(s: seq<Entry>) {
    forall i, j :: 0 <= i < j < |s| ==> s[i].objectID != s[j].objectID
  }

  ghost predicate CacheOk(s: seq<Entry>) {
    DistinctObjects(s) && |s| <= MAX_CACHED_URLS
  }

  lemma RemoveKeepsDistinct(s: seq<Entry>, i: nat)
    requires i < |s| && DistinctObjects(s)
    ensures DistinctObjects(RemoveUnordered(s, i))
    ensures forall e :: e in RemoveUnordered(s, i) <==> e in s && e != s[i]
  {
    var r, n := RemoveUnordered(s, i), |s| - 1;
    forall e | e in s && e != s[i]
      ensures e in r
    {
      var j :| 0 <= j < |s| && s[j] == e;
      assert r[if j == n then i else j] == e;
    }
  }

  lemma {:induction false} SweepFromKeepsDistinct(s: seq<Entry>, i: nat, count: nat, now: int)
    requires i <= count && DistinctObjects(s)
    ensures DistinctObjects(SweepFrom(s, i, count, now)) && |SweepFrom(s, i, count, now)| <= |s|
    ensures forall e :: e in SweepFrom(s, i, count, now) ==> e in s
    decreases |s| - count
  {
    hide DistinctObjects, RemoveUnordered;
    if count < |s| {
      if Expired(s[i], now) {
        RemoveKeepsDistinct(s, i);
        SweepFromKeepsDistinct(RemoveUnordered(s, i), i, count + 1, now);
      } else {
        SweepFromKeepsDistinct(s, i + 1, count + 1, now);
      }
    }
  }

  /** Caching a URL: it is in afterwards, once; other objects keep their entries, except that a full
      cache gives up one entry for a new object, of those accessed longest ago; and exactly when the
      cache is full of other objects that were all accessed in this second the call fails. */
  lemma CacheEffect(s: seq<Entry>, e: Entry, now: int)
    requires CacheOk(s)
    ensures Cache(s, e, now).Err? <==>
              |s| == MAX_CACHED_URLS && forall x :: x in s ==> x.objectID != e.objectID && x.lastAccess >= now
    ensures Cache(s, e, now).Ok? ==>
      var r := Cache(s, e, now).value;
      && CacheOk(r) && e in r
      && (forall x :: x in r ==> x == e || (x in s && x.objectID != e.objectID))
      && (|s| < MAX_CACHED_URLS || (exists x :: x in s && x.objectID == e.objectID) ==>
           forall x :: x in s && x.objectID != e.objectID ==> x in r)
  {
    var k := FindObject(s, e.objectID);
    if k >= 0 {
      var r := s[k := e];
      assert r[k] == e && s[k] in s;
      forall x | x in s && x.objectID != e.objectID
        ensures x in r
      {
        var j :| 0 <= j < |s| && s[j] == x;
        assert r[j] == x;
      }
    } else if |s| < MAX_CACHED_URLS {
      assert (s + [e])[|s|] == e;
    } else {
      var v := Victim(s, |s|, now);
      if v >= 0 {
        RemoveKeepsDistinct(s, v);
        var r := RemoveUnordered(s, v) + [e];
        assert r[|s| - 1] == e && s[v] in s;
      }
    }
  }

  lemma CacheKeepsOk(s: seq<Entry>, e: Entry, now: int)
    requires CacheOk(s)
    ensures |s| <= MAX_CACHED_URLS
    ensures Cache(s, e, now).Ok? ==> CacheOk(Cache(s, e, now).value)
  {
    hide Cache, CacheOk;
    CacheEffect(s, e, now);
    OkIsSmall(s);
  }

  lemma OkIsSmall(s: seq<Entry>)
    requires CacheOk(s)
    ensures |s| <= MAX_CACHED_URLS
  {
  }

  /** An eviction gives up exactly one entry, and leaves none that was accessed strictly earlier. */
  lemma EvictionTakesOldest(s: seq<Entry>, e: Entry, now: int) returns (victim: Entry)
    requires CacheOk(s) && |s| == MAX_CACHED_URLS && Cache(s, e, now).Ok?
    requires forall x :: x in s ==> x.objectID != e.objectID
    ensures victim in s && victim.lastAccess < now
    ensures forall x :: x in Cache(s, e, now).value <==> x == e || (x in s && x != victim)
    ensures forall x :: x in Cache(s, e, now).value && x != e ==> victim.lastAccess <= x.lastAccess
  {
    assert FindObject(s, e.objectID) < 0;
    var v := Victim(s, |s|, now);
    victim := s[v];
    RemoveKeepsDistinct(s, v);
  }

  // ---- runs ----

  datatype Op = CacheUrl(entry: Entry, now: int) | Get(objectID: int, now: int) | Check(now: int)

  /** The cache with a history of the URLs that were accepted. */
  datatype State = State(cache: seq<Entry>, accepted: seq<Entry>)

  function Apply(s: State, op: Op): State {
    match op
    case CacheUrl(e, now) =>
      var r := Cache(s.cache, e, now);
      if r.Ok? then State(r.value, s.accepted + [e]) else s
    case Get(id, now) => s.(cache := Touch(s.cache, id, now))
    case Check(now) => s.(cache := Swept(s.cache, now))
  }

  function Run(s: State, ops: seq<Op>): State {
    if ops == [] then s else Apply(Run(s, ops[..|ops| - 1]), ops[|ops| - 1])
  }

  /** The URL cached last for an object. */
  function LastAccepted(accepted: seq<Entry>, objectID: int): Option<string> {
    if accepted == [] then None
    else if accepted[|accepted| - 1].objectID == objectID then Some(accepted[|accepted| - 1].url)
    else LastAccepted(accepted[..|accepted| - 1], objectID)
  }

  ghost predicate Inv(s: State) {
    CacheOk(s.cache) && forall x :: x in s.cache ==> LastAccepted(s.accepted, x.objectID) == Some(x.url)
  }

  lemma ApplyKeepsInv(s: State, op: Op)
    requires Inv(s)
    ensures Inv(Apply(s, op))
  {
    hide DistinctObjects, RemoveUnordered;
    match op {
      case CacheUrl(e, now) =>
        CacheEffect(s.cache, e, now);
        assert (s.accepted + [e])[..|s.accepted|] == s.accepted;
      case Get(id, now) => TouchKeeps(s.cache, id, now);
      case Check(now) => SweepFromKeepsDistinct(s.cache, 0, 0, now);
    }
  }

  lemma TouchKeeps(s: seq<Entry>, objectID: int, now: int)
    requires DistinctObjects(s)
    ensures DistinctObjects(Touch(s, objectID, now))
    ensures forall x :: x in Touch(s, objectID, now) ==>
              exists y :: y in s && y.objectID == x.objectID && y.url == x.url
  {
    var r := Touch(s, objectID, now);
    forall x | x in r
      ensures exists y :: y in s && y.objectID == x.objectID && y.url == x.url
    {
      var j :| 0 <= j < |r| && r[j] == x;
      assert s[j] in s && s[j].objectID == x.objectID && s[j].url == x.url;
    }
  }

  /** Over any run the cache is a part of the map from objects to the URLs cached for them last: at most
      MAX_CACHED_URLS entries, at most one for an object, and a lookup yields that URL or nothing. */
  lemma {:induction false} RunAgreesWithMap(ops: seq<Op>, objectID: int)
    ensures var s := Run(State([], []), ops);
      && Inv(s)
      && (Lookup(s.cache, objectID).Some? ==> Lookup(s.cache, objectID) == LastAccepted(s.accepted, objectID))
    decreases |ops|
  {
    hide Apply, CacheOk;
    var s := Run(State([], []), ops);
    if ops == [] {
      EmptyIsOk();
    } else {
      RunAgreesWithMap(ops[..|ops| - 1], objectID);
      ApplyKeepsInv(Run(State([], []), ops[..|ops| - 1]), ops[|ops| - 1]);
    }
    var k := FindObject(s.cache, objectID);
    if k >= 0 {
      assert s.cache[k] in s.cache;
    }
  }

  lemma EmptyIsOk()
    ensures Inv(State([], []))
  {
  }

  // ---- what a lookup finds ----

  predicate Has(s: seq<Entry>, objectID: int) {
    exists x :: x in s && x.objectID == objectID
  }

  /** A lookup answers exactly for the objects that have an entry, with the URL of that entry. */
  lemma LookupExactly(s: seq<Entry>, objectID: int)
    requires DistinctObjects(s)
    ensures Lookup(s, objectID) == None <==> forall x :: x in s ==> x.objectID != objectID
    ensures forall x :: x in s && x.objectID == objectID ==> Lookup(s, objectID) == Some(x.url)
  {
    var k := FindObject(s, objectID);
    forall x | x in s && x.objectID == objectID
      ensures k >= 0 && x == s[k]
    {
      var j :| 0 <= j < |s| && s[j] == x;
    }
  }

  /** What was cached is found. */
  lemma CachedIsFound(s: seq<Entry>, e: Entry, now: int)
    requires CacheOk(s) && Cache(s, e, now).Ok?
    ensures Lookup(Cache(s, e, now).value, e.objectID) == Some(e.url)
  {
    hide Cache;
    CacheEffect(s, e, now);
    LookupExactly(Cache(s, e, now).value, e.objectID);
  }

  predicate Accepts(s: State, op: Op, objectID: int) {
    op.CacheUrl? && op.entry.objectID == objectID && Cache(s.cache, op.entry, op.now).Ok?
  }

  /** The operation takes the object out of the cache. */
  predicate Drops(s: State, op: Op, objectID: int) {
    Has(s.cache, objectID) && !Has(Apply(s, op).cache, objectID)
  }

  /** An object goes only when a sweep finds it expired, or as the least recently used one when a new object
      enters a full cache. */
  lemma DropsWhen(s: State, op: Op, x: Entry)
    requires Inv(s) && x in s.cache && Drops(s, op, x.objectID)
    ensures match op
      case Check(now) => now - x.lastAccess > URL_CACHE_LIFETIME
      case CacheUrl(e, now) =>
        && |s.cache| == MAX_CACHED_URLS && !Has(s.cache, e.objectID)
        && x.lastAccess < now && forall y :: y in s.cache ==> x.lastAccess <= y.lastAccess
      case Get(_, _) => false
  {
    hide DistinctObjects, RemoveUnordered, KeepsFresh;
    match op {
      case CacheUrl(e, now) =>
        CacheEffect(s.cache, e, now);
        if |s.cache| == MAX_CACHED_URLS && !Has(s.cache, e.objectID) && Cache(s.cache, e, now).Ok? {
          assert forall y :: y in s.cache ==> y.objectID != e.objectID;
          var victim := EvictionTakesOldest(s.cache, e, now);
        }
      case Get(id, now) => TouchHas(s.cache, id, now, x);
      case Check(now) =>
        if !Expired(x, now) {
          FreshStays(s.cache, now, x);
        }
    }
  }

  /** A check of the timer gets rid of at least half of the objects that were not used for longer than the
      lifetime. */
  lemma CheckHalves(s: State, now: int)
    ensures Overdue(Apply(s, Check(now)).cache, now) <= Overdue(s.cache, now) / 2
  {
    OverdueIsExpired(s.cache, now);
    OverdueIsExpired(Swept(s.cache, now), now);
    SweepHalves(s.cache, now);
  }

  function Overdue(s: seq<Entry>, now: int): nat {
    if s == [] then 0
    else Overdue(s[..|s| - 1], now) + if now - s[|s| - 1].lastAccess > URL_CACHE_LIFETIME then 1 else 0
  }

  lemma {:induction false} OverdueIsExpired(s: seq<Entry>, now: int)
    ensures Overdue(s, now) == CountExpired(s, now)
  {
    if s != [] {
      OverdueIsExpired(s[..|s| - 1], now);
    }
  }

  lemma TouchHas(s: seq<Entry>, objectID: int, now: int, x: Entry)
    requires x in s
    ensures Has(Touch(s, objectID, now), x.objectID)
  {
    var j :| 0 <= j < |s| && s[j] == x;
    assert Touch(s, objectID, now)[j].objectID == x.objectID;
  }

  lemma FreshStays(s: seq<Entry>, now: int, x: Entry)
    requires x in s && !Expired(x, now)
    ensures x in Swept(s, now)
  {
    SweepHalves(s, now);
    assert multiset(Swept(s, now))[x] == multiset(s)[x];
  }

  /** Nothing but an accepted URL brings an object in. */
  lemma EntersOnlyAccepted(s: State, op: Op, objectID: int)
    requires Inv(s)
    ensures Accepts(s, op, objectID) ==> Has(Apply(s, op).cache, objectID)
    ensures Has(Apply(s, op).cache, objectID) ==> Has(s.cache, objectID) || Accepts(s, op, objectID)
  {
    hide DistinctObjects, RemoveUnordered, KeepsFresh;
    match op {
      case CacheUrl(e, now) => CacheEffect(s.cache, e, now);
      case Get(id, now) => TouchKeeps(s.cache, id, now);
      case Check(now) => SweepFromKeepsDistinct(s.cache, 0, 0, now);
    }
  }

  function After(ops: seq<Op>, k: nat): State
    requires k <= |ops|
  {
    Run(State([], []), ops[..k])
  }

  /** The object was cached, and has not been dropped since. */
  predicate KeptSince(ops: seq<Op>, n: nat, objectID: int)
    requires n <= |ops|
  {
    exists i :: 0 <= i < n && Accepts(After(ops, i), ops[i], objectID) &&
                forall k :: i < k < n ==> !Drops(After(ops, k), ops[k], objectID)
  }

  lemma AfterStep(ops: seq<Op>, n: nat)
    requires n < |ops|
    ensures After(ops, n + 1) == Apply(After(ops, n), ops[n])
  {
    assert ops[..n + 1][..n] == ops[..n];
  }

  lemma KeptStep(ops: seq<Op>, n: nat, objectID: int)
    requires n < |ops|
    ensures KeptSince(ops, n + 1, objectID) <==>
              Accepts(After(ops, n), ops[n], objectID) ||
              (KeptSince(ops, n, objectID) && !Drops(After(ops, n), ops[n], objectID))
  {
    hide Accepts, Drops, After;
    if KeptSince(ops, n + 1, objectID) && !Accepts(After(ops, n), ops[n], objectID) {
      KeptBefore(ops, n, objectID);
    }
  }

  lemma KeptBefore(ops: seq<Op>, n: nat, objectID: int)
    requires n < |ops| && KeptSince(ops, n + 1, objectID) && !Accepts(After(ops, n), ops[n], objectID)
    ensures KeptSince(ops, n, objectID) && !Drops(After(ops, n), ops[n], objectID)
  {
    hide Accepts, Drops, After;
    var i :| 0 <= i < n + 1 && Accepts(After(ops, i), ops[i], objectID) &&
             forall k :: i < k < n + 1 ==> !Drops(After(ops, k), ops[k], objectID);
    assert i < n;
  }

  lemma {:induction false} HasIsKept(ops: seq<Op>, n: nat, objectID: int)
    requires n <= |ops|
    ensures Inv(After(ops, n))
    ensures Has(After(ops, n).cache, objectID) <==> KeptSince(ops, n, objectID)
  {
    hide Accepts, Apply, Inv, KeptSince, Run;
    RunAgreesWithMap(ops[..n], objectID);
    if n == 0 {
      EmptyHasNone(ops, objectID);
    } else {
      HasIsKept(ops, n - 1, objectID);
      AfterStep(ops, n - 1);
      KeptStep(ops, n - 1, objectID);
      EntersOnlyAccepted(After(ops, n - 1), ops[n - 1], objectID);
    }
  }

  lemma EmptyHasNone(ops: seq<Op>, objectID: int)
    ensures !Has(After(ops, 0).cache, objectID) && !KeptSince(ops, 0, objectID)
  {
  }

  /** Over any run a lookup yields the URL cached last for the object, exactly when the object has been neither
      evicted nor swept since. */
  lemma LookupOverRun(ops: seq<Op>, objectID: int)
    ensures var s := Run(State([], []), ops);
      Lookup(s.cache, objectID) ==
        if KeptSince(ops, |ops|, objectID) then LastAccepted(s.accepted, objectID) else None
  {
    hide Inv, KeptSince, Run;
    assert ops[..|ops|] == ops;
    HasIsKept(ops, |ops|, objectID);
    RunAgreesWithMap(ops, objectID);
    InvIsDistinct(Run(State([], []), ops));
    LookupExactly(Run(State([], []), ops).cache, objectID);
  }

  lemma InvIsDistinct(s: State)
    requires Inv(s)
    ensures DistinctObjects(s.cache)
  {
  }

  /** The time at which the object was last cached or asked for. */
  function LastUse(ops: seq<Op>, n: nat, objectID: int): Option<int>
    requires n <= |ops|
  {
    if n == 0 then None
    else if Accepts(After(ops, n - 1), ops[n - 1], objectID) then Some(ops[n - 1].entry.lastAccess)
    else if ops[n - 1].Get? && ops[n - 1].objectID == objectID then Some(ops[n - 1].now)
    else LastUse(ops, n - 1, objectID)
  }

  /** The access time of an entry is that of the object's last use; sweeps and evictions go by it. */
  lemma {:induction false} AccessIsLastUse(ops: seq<Op>, n: nat, x: Entry)
    requires n <= |ops| && x in After(ops, n).cache
    ensures LastUse(ops, n, x.objectID) == Some(x.lastAccess)
  {
    hide Accepts, Apply, Inv, Run;
    if n == 0 {
      EmptyHasNone(ops, x.objectID);
    } else {
      var s, op := After(ops, n - 1), ops[n - 1];
      AfterStep(ops, n - 1);
      RunAgreesWithMap(ops[..n - 1], x.objectID);
      if !(op.Get? && op.objectID == x.objectID) && !Accepts(s, op, x.objectID) {
        OthersUntouched(s, op, x);
        AccessIsLastUse(ops, n - 1, x);
      } else {
        UsedNow(s, op, x);
      }
    }
  }

  lemma OthersUntouched(s: State, op: Op, x: Entry)
    requires Inv(s) && x in Apply(s, op).cache
    requires !(op.Get? && op.objectID == x.objectID) && !Accepts(s, op, x.objectID)
    ensures x in s.cache
  {
    hide DistinctObjects, RemoveUnordered;
    match op {
      case CacheUrl(e, now) => CacheEffect(s.cache, e, now);
      case Get(id, now) =>
      case Check(now) => SweepFromKeepsDistinct(s.cache, 0, 0, now);
    }
  }

  lemma UsedNow(s: State, op: Op, x: Entry)
    requires Inv(s) && x in Apply(s, op).cache
    requires (op.Get? && op.objectID == x.objectID) || Accepts(s, op, x.objectID)
    ensures x.lastAccess == if op.Get? then op.now else op.entry.lastAccess
    ensures op.Get? <==> !Accepts(s, op, x.objectID)
  {
    match op {
      case CacheUrl(e, now) => CacheEffect(s.cache, e, now);
      case Get(id, now) =>
        var r := Touch(s.cache, id, now);
        var j :| 0 <= j < |r| && r[j] == x;
        var k := FindObject(s.cache, id);
        assert s.cache[j].objectID == id;
    }
  }

  // ---- the objects ----

  class CachedURL {
    const objectID: int
    const url: string
    var lastAccessTime: int

    constructor (objectID: int, url: string, now: int)
      ensures GetEntry() == Entry(objectID, url, now)
    {
      this.objectID, this.url := objectID, url;
      lastAccessTime := now;
    }

    function GetEntry(): Entry
      reads this
    {
      Entry(objectID, url, lastAccessTime)
    }

    method GetURL(now: int) returns (url: string)
      modifies this
      ensures url == this.url && lastAccessTime == now
    {
      lastAccessTime := now;
      return this.url;
    }
  }

  ghost function EntriesOf(cs: seq<CachedURL>): (s: seq<Entry>)
    reads cs
    ensures |s| == |cs| && forall i :: 0 <= i < |s| ==> s[i] == cs[i].GetEntry()
  {
    seq(|cs|, i requires 0 <= i < |cs| reads cs => cs[i].GetEntry())
  }

  lemma RemovedEntry(cs: seq<CachedURL>, i: nat)
    requires i < |cs|
    ensures EntriesOf(RemoveUnordered(cs, i)) == RemoveUnordered(EntriesOf(cs), i)
    ensures forall c :: c in RemoveUnordered(cs, i) ==> c in cs
  {
  }

  lemma ReplacedEntry(cs: seq<CachedURL>, i: nat, c: CachedURL)
    requires i < |cs|
    ensures EntriesOf(cs[i := c]) == EntriesOf(cs)[i := c.GetEntry()]
  {
  }

  class UrlCache {
    var cachedUrls: seq<CachedURL>
    var timerArmed: bool

    constructor ()
      ensures Valid() && View() == []
    {
      cachedUrls, timerArmed := [], false;
    }

    ghost function View(): seq<Entry>
      reads this, cachedUrls
    {
      EntriesOf(cachedUrls)
    }

    /** The check timer is armed exactly while the cache is not empty. */
    ghost predicate Valid()
      reads this, cachedUrls
    {
      CacheOk(View()) && (timerArmed <==> cachedUrls != [])
    }

    /** The body of checkCachedURLs before the timer is armed again. */
    method Sweep(now: int)
      modifies this`cachedUrls
      ensures View() == Swept(old(View()), now)
      ensures forall c :: c in cachedUrls ==> c in old(cachedUrls)
    {
      hide SweepFrom, RemoveUnordered, EntriesOf;
      var count, i := 0, 0;
      while count < |cachedUrls|
        invariant 0 <= i <= count
        invariant SweepFrom(View(), i, count, now) == Swept(old(View()), now)
        invariant forall c :: c in cachedUrls ==> c in old(cachedUrls)
        decreases |cachedUrls| - count
      {
        SweepFromStep(View(), i, count, now);
        RemovedEntry(cachedUrls, i);
        if cachedUrls[i].lastAccessTime + URL_CACHE_LIFETIME < now {
          cachedUrls := RemoveUnordered(cachedUrls, i);
        } else {
          i := i + 1;
        }
        count := count + 1;
      }
      SweepFromEnd(View(), i, count, now);
    }

    /** The timer has fired, once; it is armed again when something is left. */
    method CheckCachedURLs(now: int)
      requires Valid() && timerArmed
      modifies this
      ensures Valid() && View() == Swept(old(View()), now)
    {
      timerArmed := false;
      ghost var s := View();
      Sweep(now);
      SweepFromKeepsDistinct(s, 0, 0, now);
      if |cachedUrls| > 0 {
        timerArmed := true;
      }
    }

    /** The search of cacheURL: the object's own place, or the replacement candidate. */
    method FindPlace(objectID: int, now: int) returns (own: int, oldestIndex: int)
      ensures own == FindObject(View(), objectID)
      ensures own < 0 ==> oldestIndex == Victim(View(), |View()|, now)
    {
      hide FindObject, Victim, EntriesOf;
      ghost var s := View();
      VictimOfNone(s, now);
      var oldest := now;
      oldestIndex := -1;
      var i := 0;
      while i < |cachedUrls|
        invariant 0 <= i <= |s|
        invariant oldestIndex == Victim(s, i, now)
        invariant oldest == if oldestIndex < 0 then now else s[oldestIndex].lastAccess
        invariant forall j :: 0 <= j < i ==> s[j].objectID != objectID
      {
        var cached := cachedUrls[i];
        assert s[i] == cached.GetEntry();
        VictimStep(s, i, now);
        if cached.lastAccessTime < oldest {
          oldest := cached.lastAccessTime;
          oldestIndex := i;
        }
        if objectID == cached.objectID {
          return i, oldestIndex;
        }
        i := i + 1;
      }
      own := -1;
    }

    /** A new object's URL: a full cache gives up the candidate first. */
    method Insert(url: CachedURL, oldestIndex: int, now: int) returns (failed: bool)
      requires oldestIndex == Victim(View(), |View()|, now) && FindObject(View(), url.objectID) < 0
      requires |cachedUrls| <= MAX_CACHED_URLS
      modifies this`cachedUrls
      ensures failed <==> Cache(old(View()), url.GetEntry(), now).Err?
      ensures View() == if failed then old(View()) else Cache(old(View()), url.GetEntry(), now).value
      ensures failed || cachedUrls != []
    {
      hide FindObject, Victim, EntriesOf;
      ghost var s := View();
      if |cachedUrls| >= MAX_CACHED_URLS {
        if oldestIndex > -1 && oldestIndex <= MAX_CACHED_URLS {
          cachedUrls := RemoveUnordered(cachedUrls, oldestIndex);
          assert View() == RemoveUnordered(s, oldestIndex);
        } else {
          return true;
        }
      }
      ghost var t := View();
      cachedUrls := cachedUrls + [url];
      assert View() == t + [url.GetEntry()];
      failed := false;
    }

    method CacheURL(url: CachedURL, now: int) returns (failed: bool)
      requires Valid()
      modifies this
      ensures Valid() && (failed <==> Cache(old(View()), url.GetEntry(), now).Err?)
      ensures View() == if failed then old(View()) else Cache(old(View()), url.GetEntry(), now).value
    {
      hide CacheOk, FindObject, Victim, EntriesOf, RemoveUnordered;
      ghost var s := View();
      CacheKeepsOk(s, url.GetEntry(), now);
      var oldSize := |cachedUrls|;
      var own, oldestIndex := FindPlace(url.objectID, now);
      if own >= 0 {
        ReplacedEntry(cachedUrls, own, url);
        cachedUrls := cachedUrls[own := url];
      } else {
        failed := Insert(url, oldestIndex, now);
        if failed {
          return;
        }
      }
      if |cachedUrls| > 0 && oldSize == 0 {
        timerArmed := true;
      }
      failed := false;
    }

    method GetCachedURL(objectID: int, now: int) returns (url: Option<string>)
      requires Valid()
      modifies cachedUrls
      ensures Valid() && View() == Touch(old(View()), objectID, now)
      ensures url == Lookup(old(View()), objectID)
    {
      hide DistinctObjects, FindObject, EntriesOf;
      ghost var s := View();
      TouchKeeps(s, objectID, now);
      var i := 0;
      while i < |cachedUrls|
        invariant 0 <= i <= |cachedUrls|
        invariant forall j :: 0 <= j < i ==> s[j].objectID != objectID
        invariant unchanged(this) && forall c :: c in cachedUrls ==> unchanged(c)
      {
        if cachedUrls[i].objectID == objectID {
          OthersDiffer(s, i);
          assert FindObject(s, objectID) == i;
          var u := cachedUrls[i].GetURL(now);
          assert View() == s[i := s[i].(lastAccess := now)];
          return Some(u);
        }
        i := i + 1;
      }
      return None;
    }
  }

  lemma VictimOfNone(s: seq<Entry>, now: int)
    ensures Victim(s, 0, now) == -1
  {
  }

  lemma VictimStep(s: seq<Entry>, i: nat, now: int)
    requires i < |s|
    ensures Victim(s, i + 1, now) ==
            var v := Victim(s, i, now);
            if s[i].lastAccess < (if v < 0 then now else s[v].lastAccess) then i else v
  {
  }

  lemma OthersDiffer(s: seq<Entry>, i: nat)
    requires DistinctObjects(s) && i < |s|
    ensures forall j :: 0 <= j < |s| && j != i ==> s[j].objectID != s[i].objectID
  {
  }
}
