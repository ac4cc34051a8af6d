/** Dictionaries of strings with their two printed forms: `k=v&k=v` and the URL form `k/v/k/v`. */
module Dictionaries {
  import opened Wrappers
  import opened Strings

  datatype Pair = Pair(key: string, value: string)

  /** The elements in order; `Put` keeps the keys distinct. */
  type Pairs = seq<Pair>

  ghost predicate DistinctKeys(d: Pairs) {
    forall i, j :: 0 <= i < j < |d| ==> d[i].key != d[j].key
  }

  predicate BytePairs(d: Pairs) {
    forall i :: 0 <= i < |d| ==> IsBytes(d[i].key) && IsBytes(d[i].value)
  }

  /** The index of the first pair with the key, or the length. */
  function Find(d: Pairs, key: string): (n: nat)
    ensures n <= |d|
    ensures n < |d| ==> d[n].key == key
    ensures forall i :: 0 <= i < n ==> d[i].key != key
  {
    if d == [] then 0 else if d[0].key == key then 0 else 1 + Find(d[1..], key)
  }

  function PutPair(d: Pairs, key: string, value: string): (e: Pairs)
    ensures DistinctKeys(d) ==> DistinctKeys(e)
  {
    var n := Find(d, key);
    if n < |d| then d[n := Pair(key, value)] else d + [Pair(key, value)]
  }

  function Lookup(d: Pairs, key: string): (v: Option<string>)
  {
    var n := Find(d, key);
    if n < |d| then Some(d[n].value) else None
  }

  function RemoveKey(d: Pairs, key: string): (e: Pairs)
  {
    var n := Find(d, key);
    if n < |d| then d[..n] + d[n + 1..] else d
  }

  function PutAll(d: Pairs, more: Pairs): Pairs
    decreases |more|
  {
    if more == [] then d else PutAll(PutPair(d, more[0].key, more[0].value), more[1..])
  }

  predicate Subset(d: Pairs, e: Pairs) {
    forall i :: 0 <= i < |d| ==> Lookup(e, d[i].key) == Some(d[i].value)
  }

  predicate SameMapping(d: Pairs, e: Pairs) {
    Subset(d, e) && Subset(e, d)
  }

  // ---- the dictionary as a map ----

  lemma FindUnique(d: Pairs, i: nat)
    requires DistinctKeys(d) && i < |d|
    ensures Find(d, d[i].key) == i
  {
  }

  /** `Put` changes what one key maps to and nothing else. */
  lemma GetPut(d: Pairs, key: string, value: string, other: string)
    ensures Lookup(PutPair(d, key, value), other) == if other == key then Some(value) else Lookup(d, other)
  {
    var e := PutPair(d, key, value);
    var n, m, k := Find(d, key), Find(d, other), Find(e, other);
    if other != key {
      assert forall i :: 0 <= i < |d| && i != n ==> e[i] == d[i];
      assert m < |d| ==> e[m] == d[m];
      assert k < |d| && k != n ==> d[k] == e[k];
    } else {
      assert e[n].key == key;
    }
  }

  /** `Remove` forgets one key and nothing else. */
  lemma GetRemove(d: Pairs, key: string, other: string)
    requires DistinctKeys(d)
    ensures DistinctKeys(RemoveKey(d, key))
    ensures Lookup(RemoveKey(d, key), other) == if other == key then None else Lookup(d, other)
  {
    hide Find;
    var n := Find(d, key);
    if n < |d| {
      WithoutAt(d, n);
      if other == key {
        FindGone(d, RemoveKey(d, key), n);
      } else {
        FindSkips(d, RemoveKey(d, key), n, other);
      }
    }
  }

  /** `e` is `d` without element `n`. */
  ghost predicate Without(d: Pairs, e: Pairs, n: nat) {
    && n < |d| && |e| + 1 == |d|
    && (forall i :: 0 <= i < n ==> e[i] == d[i])
    && (forall i :: n <= i < |e| ==> e[i] == d[i + 1])
  }

  lemma WithoutAt(d: Pairs, n: nat)
    requires n < |d|
    ensures var e := d[..n] + d[n + 1..];
      Without(d, e, n) && (DistinctKeys(d) ==> DistinctKeys(e))
  {
  }

  lemma FindSkips(d: Pairs, e: Pairs, n: nat, other: string)
    requires Without(d, e, n) && d[n].key != other
    ensures Find(e, other) == if Find(d, other) > n then Find(d, other) - 1 else Find(d, other)
  {
    hide Find;
    var m, k := Find(d, other), Find(e, other);
    if m < |d| {
      assert e[if m < n then m else m - 1] == d[m];
    }
    if k < |e| {
      assert d[if k < n then k else k + 1].key == other;
    }
  }

  lemma FindGone(d: Pairs, e: Pairs, n: nat)
    requires Without(d, e, n) && DistinctKeys(d)
    ensures Find(e, d[n].key) == |e|
  {
    hide Find;
    forall k | 0 <= k < |e|
      ensures e[k].key != d[n].key
    {
      assert e[k] == d[if k < n then k else k + 1];
    }
  }

  /** Two dictionaries are equal in the sense of `Equals` exactly when they map every key alike,
      whatever the order of their elements. */
  lemma EqualsIsMapEquality(d: Pairs, e: Pairs)
    requires DistinctKeys(d) && DistinctKeys(e)
    ensures SameMapping(d, e) <==> forall key :: Lookup(d, key) == Lookup(e, key)
  {
    if SameMapping(d, e) {
      forall key
        ensures Lookup(d, key) == Lookup(e, key)
      {
        var n, m := Find(d, key), Find(e, key);
        assert n < |d| ==> Lookup(e, d[n].key) == Some(d[n].value);
        assert m < |e| ==> Lookup(d, e[m].key) == Some(e[m].value);
      }
    } else if !Subset(d, e) {
      var i :| 0 <= i < |d| && Lookup(e, d[i].key) != Some(d[i].value);
      FindUnique(d, i);
    } else {
      var i :| 0 <= i < |e| && Lookup(d, e[i].key) != Some(e[i].value);
      FindUnique(e, i);
    }
  }

  /** Putting pairs with new keys one after the other appends them. */
  lemma {:induction false} PutAllFresh(d: Pairs, more: Pairs)
    requires DistinctKeys(d + more)
    ensures PutAll(d, more) == d + more
    decreases |more|
  {
    if more == [] {
      assert d + more == d;
    } else {
      forall i | 0 <= i < |d|
        ensures d[i].key != more[0].key
      {
        assert (d + more)[i].key != (d + more)[|d|].key;
      }
      var d1 := PutPair(d, more[0].key, more[0].value);
      assert d1 == d + [more[0]];
      assert d1 + more[1..] == d + more;
      PutAllFresh(d1, more[1..]);
    }
  }

  lemma {:induction false} PutAllGet(d: Pairs, more: Pairs, key: string)
    requires DistinctKeys(more)
    ensures Lookup(PutAll(d, more), key) == if Lookup(more, key).Some? then Lookup(more, key) else Lookup(d, key)
    decreases |more|
  {
    if more != [] {
      var p := more[0];
      GetPut(d, p.key, p.value, key);
      PutAllGet(PutPair(d, p.key, p.value), more[1..], key);
      var m := Find(more[1..], key);
      if m < |more[1..]| {
        assert more[m + 1].key == key;
        assert more[0].key != more[m + 1].key;
      }
    }
  }

  // ---- printing ----

  function EncodePair(p: Pair, sep2: char): string
    requires BytePairs([p])
  {
    assert [p][0] == p;
    UrlEscape(p.key) + [sep2] + UrlEscape(p.value)
  }

  function EncodePairs(d: Pairs, sep1: char, sep2: char): string
    requires BytePairs(d)
  {
    if d == [] then ""
    else if |d| == 1 then EncodePair(d[0], sep2)
    else EncodePair(d[0], sep2) + [sep1] + EncodePairs(d[1..], sep1, sep2)
  }

  /** Adding a pair at the end prints a separator and that pair. */
  lemma {:induction false} EncodeSnoc(d: Pairs, p: Pair, sep1: char, sep2: char)
    requires BytePairs(d) && BytePairs([p])
    ensures BytePairs(d + [p])
    ensures EncodePairs(d + [p], sep1, sep2) ==
            EncodePairs(d, sep1, sep2) + (if d == [] then "" else [sep1]) + EncodePair(p, sep2)
  {
    hide EncodePair;
    assert [p][0] == p;
    assert BytePairs(d + [p]);
    if |d| == 0 {
      assert d + [p] == [p];
    } else {
      assert (d + [p])[0] == d[0] && (d + [p])[1..] == d[1..] + [p];
      EncodeSnoc(d[1..], p, sep1, sep2);
      var a, b, c, e := EncodePair(d[0], sep2), [sep1], EncodePairs(d[1..], sep1, sep2), EncodePair(p, sep2);
      if |d| > 1 {
        FiveParts(a, b, c, [sep1], e);
      } else {
        assert d[1..] == [] && c == "";
        FiveParts(a, b, c, "", e);
      }
    }
  }

  lemma FiveParts(a: string, b: string, c: string, d: string, e: string)
    ensures a + b + (c + d + e) == a + b + c + d + e
  {
  }

  // ---- parsing `k=v&k=v` ----

  /** The loop of `Decode`, from some point of the text on. */
  function DecodeOnto(d: Pairs, url: string): Pairs
    decreases |url|
  {
    if url == "" then d else DecodeOnto(DecodeOne(d, Before(url, '&')), After(url, '&'))
  }

  /** A part without `=` is skipped. */
  function DecodeOne(d: Pairs, part: string): Pairs {
    if IndexOf(part, '=') == |part| then d
    else PutPair(d, UrlUnescape(Before(part, '=')), UrlUnescape(After(part, '=')))
  }

  lemma DecodeRaw(d: Pairs, k: string, v: string, rest: string)
    requires '&' !in k && '=' !in k && '&' !in v && (rest == "" || rest[0] == '&')
    ensures DecodeOnto(d, k + ['='] + v + rest) ==
            DecodeOnto(PutPair(d, UrlUnescape(k), UrlUnescape(v)), if rest == "" then "" else rest[1..])
  {
    var kv := k + ['='] + v;
    assert kv == k + (['='] + v) && (['='] + v)[1..] == v;
    CutAt(k, '=', ['='] + v);
    assert DecodeOne(d, kv) == PutPair(d, UrlUnescape(k), UrlUnescape(v));
    CutAt(kv, '&', rest);
    assert kv + rest != "";
  }

  /** An escaped pair followed by the end or by a separator is read back and consumed. */
  lemma DecodePair(d: Pairs, p: Pair, rest: string)
    requires BytePairs([p]) && (rest == "" || rest[0] == '&')
    ensures DecodeOnto(d, EncodePair(p, '=') + rest) ==
            DecodeOnto(PutPair(d, p.key, p.value), if rest == "" then "" else rest[1..])
  {
    assert [p][0] == p;
    EscapeIsSafe(p.key);
    EscapeIsSafe(p.value);
    DecodeRaw(d, UrlEscape(p.key), UrlEscape(p.value), rest);
    UnescapeEscape(p.key);
    UnescapeEscape(p.value);
  }

  lemma {:induction false} DecodeEncodeOnto(acc: Pairs, d: Pairs)
    requires BytePairs(d)
    ensures DecodeOnto(acc, EncodePairs(d, '&', '=')) == PutAll(acc, d)
    decreases |d|
  {
    hide EncodePair, DecodeOne, PutPair, IndexOf;
    if d != [] {
      var acc1 := PutPair(acc, d[0].key, d[0].value);
      var rest := if |d| == 1 then "" else ['&'] + EncodePairs(d[1..], '&', '=');
      assert BytePairs([d[0]]);
      DecodePair(acc, d[0], rest);
      assert EncodePairs(d, '&', '=') == EncodePair(d[0], '=') + rest;
      if |d| == 1 {
        assert d[1..] == [];
      } else {
        assert rest[1..] == EncodePairs(d[1..], '&', '=');
      }
      DecodeEncodeOnto(acc1, d[1..]);
    }
  }

  /** Reading what was printed gives back the same ordered pairs. */
  lemma DecodeEncode(d: Pairs)
    requires BytePairs(d) && DistinctKeys(d)
    ensures DecodeOnto([], EncodePairs(d, '&', '=')) == d
  {
    DecodeEncodeOnto([], d);
    PutAllOntoEmpty(d);
  }

  // ---- parsing `k/v/k/v` ----

  /** The loop of `DecodeSimple`, from some point of the text on: it stops at the first empty key or
      value, and at a key without a value. */
  function DecodeSimpleOnto(d: Pairs, url: string): Pairs
    decreases |url|
  {
    var pos := IndexOf(url, '/');
    if pos == |url| || pos == 0 || Before(After(url, '/'), '/') == "" then d
    else
      DecodeSimpleOnto(
        PutPair(d, UrlUnescape(Before(url, '/')), UrlUnescape(Before(After(url, '/'), '/'))),
        After(After(url, '/'), '/'))
  }

  /** The pairs before the first one with an empty key or value. */
  function NonEmptyPrefix(d: Pairs): (e: Pairs)
    ensures e <= d
  {
    if d == [] || d[0].key == "" || d[0].value == "" then [] else [d[0]] + NonEmptyPrefix(d[1..])
  }

  predicate AllNonEmpty(d: Pairs) {
    forall i :: 0 <= i < |d| ==> d[i].key != "" && d[i].value != ""
  }

  lemma {:induction false} NonEmptyPrefixIsAll(d: Pairs)
    ensures NonEmptyPrefix(d) == d <==> AllNonEmpty(d)
  {
    if d != [] {
      NonEmptyPrefixIsAll(d[1..]);
      assert d == [d[0]] + d[1..];
    }
  }

  /** A raw key and value without separators, followed by the end or a separator. */
  lemma DecodeSimpleStep(d: Pairs, key: string, value: string, rest: string)
    requires '/' !in key && '/' !in value && (rest == "" || rest[0] == '/')
    ensures DecodeSimpleOnto(d, key + "/" + value + rest) ==
      if key == "" || value == "" then d
      else DecodeSimpleOnto(PutPair(d, UrlUnescape(key), UrlUnescape(value)),
                            if rest == "" then "" else rest[1..])
  {
    var tail := value + rest;
    assert key + "/" + value + rest == key + (['/'] + tail);
    CutAt(key, '/', ['/'] + tail);
    assert (['/'] + tail)[1..] == tail;
    CutAt(value, '/', rest);
  }

  lemma DecodeSimplePair(d: Pairs, p: Pair, rest: string)
    requires BytePairs([p]) && (rest == "" || rest[0] == '/')
    ensures DecodeSimpleOnto(d, EncodePair(p, '/') + rest) ==
      if p.key == "" || p.value == "" then d
      else DecodeSimpleOnto(PutPair(d, p.key, p.value), if rest == "" then "" else rest[1..])
  {
    assert [p][0] == p;
    EscapeIsSafe(p.key);
    EscapeIsSafe(p.value);
    DecodeSimpleStep(d, UrlEscape(p.key), UrlEscape(p.value), rest);
    UnescapeEscape(p.key);
    UnescapeEscape(p.value);
  }

  /** What follows the first pair of a printed dictionary with `rest` behind it. */
  lemma BehindFirst(d: Pairs, rest: string) returns (more: string)
    requires BytePairs(d) && d != []
    ensures BytePairs([d[0]])
    ensures EncodePairs(d, '/', '/') + rest == EncodePair(d[0], '/') + more
    ensures |d| == 1 ==> more == rest
    ensures |d| > 1 ==> more != "" && more[0] == '/' && more[1..] == EncodePairs(d[1..], '/', '/') + rest
  {
    var p := d[0];
    assert BytePairs([p]);
    if |d| == 1 {
      more := rest;
    } else {
      var tail := EncodePairs(d[1..], '/', '/');
      more := ['/'] + (tail + rest);
      Regroup(EncodePair(p, '/'), ['/'], tail, rest);
    }
  }

  lemma Regroup(a: string, b: string, c: string, d: string)
    ensures a + b + c + d == a + (b + (c + d))
  {
  }

  /** A printed dictionary at the front of a URL: either all of it is read and parsing goes on behind
      it, or parsing ends at the first pair with an empty side. */
  lemma {:induction false} DecodeSimpleEncoded(acc: Pairs, d: Pairs, rest: string)
    requires BytePairs(d) && d != [] && (rest == "" || rest[0] == '/')
    ensures DecodeSimpleOnto(acc, EncodePairs(d, '/', '/') + rest) ==
      if AllNonEmpty(d) then DecodeSimpleOnto(PutAll(acc, d), if rest == "" then "" else rest[1..])
      else PutAll(acc, NonEmptyPrefix(d))
    decreases |d|
  {
    var p := d[0];
    var more := BehindFirst(d, rest);
    DecodeSimplePair(acc, p, more);
    if p.key == "" || p.value == "" {
      assert !AllNonEmpty(d);
    } else {
      AllNonEmptyTail(acc, d);
      if |d| == 1 {
        assert d[1..] == [];
      } else {
        DecodeSimpleEncoded(PutPair(acc, p.key, p.value), d[1..], rest);
      }
    }
  }

  lemma AllNonEmptyTail(acc: Pairs, d: Pairs)
    requires d != [] && d[0].key != "" && d[0].value != ""
    ensures AllNonEmpty(d) <==> AllNonEmpty(d[1..])
    ensures PutAll(acc, NonEmptyPrefix(d)) ==
            PutAll(PutPair(acc, d[0].key, d[0].value), NonEmptyPrefix(d[1..]))
  {
    assert ([d[0]] + NonEmptyPrefix(d[1..]))[1..] == NonEmptyPrefix(d[1..]);
    assert d == [d[0]] + d[1..];
  }

  lemma PutAllOntoEmpty(e: Pairs)
    requires DistinctKeys(e)
    ensures PutAll([], e) == e
  {
    assert [] + e == e;
    PutAllFresh([], e);
  }

  /** Reading the URL form gives the pairs before the first one with an empty side; so it is the
      identity exactly when no side is empty. */
  lemma DecodeSimpleEncode(d: Pairs)
    requires BytePairs(d) && DistinctKeys(d)
    ensures DecodeSimpleOnto([], EncodePairs(d, '/', '/')) == NonEmptyPrefix(d)
    ensures DecodeSimpleOnto([], EncodePairs(d, '/', '/')) == d <==> AllNonEmpty(d)
  {
    NonEmptyPrefixIsAll(d);
    var e := NonEmptyPrefix(d);
    assert forall i :: 0 <= i < |e| ==> e[i] == d[i];
    PutAllOntoEmpty(e);
    PutAllOntoEmpty(d);
    if d != [] {
      assert EncodePairs(d, '/', '/') + "" == EncodePairs(d, '/', '/');
      DecodeSimpleEncoded([], d, "");
    }
  }

  /** The loop of `Put`, `Get` and `Remove` finds the first element with the key. */
  lemma FindPrefix(d: Pairs, key: string, i: nat)
    requires i <= |d| && forall j :: 0 <= j < i ==> d[j].key != key
    ensures i < |d| && d[i].key == key ==> Find(d, key) == i
    ensures i == |d| ==> Find(d, key) == |d|
  {
    var n := Find(d, key);
    if i < |d| && d[i].key == key && n > i {
      assert false;
    }
  }

  lemma {:induction false} IndexOfPrefix(s: string, n: nat, c: char)
    requires n <= |s|
    ensures IndexOf(s[..n], c) == if IndexOf(s, c) < n then IndexOf(s, c) else n
  {
    if n > 0 && s[0] != c {
      assert s[..n][1..] == s[1..][..n - 1];
      IndexOfPrefix(s[1..], n - 1, c);
    }
  }

  /** The pair of the next part, found by searching the whole rest of the text for `=`. */
  function DecodeAt(d: Pairs, rest: string): Pairs {
    var amp, eq := IndexOf(rest, '&'), IndexOf(rest, '=');
    if eq < amp then PutPair(d, UrlUnescape(rest[..eq]), UrlUnescape(rest[eq + 1..amp])) else d
  }

  lemma EqInPart(d: Pairs, rest: string)
    ensures DecodeAt(d, rest) == DecodeOne(d, Before(rest, '&'))
  {
    var amp, eq := IndexOf(rest, '&'), IndexOf(rest, '=');
    IndexOfPrefix(rest, amp, '=');
    if eq < amp {
      assert rest[..amp][..eq] == rest[..eq];
      assert rest[..amp][eq + 1..] == rest[eq + 1..amp];
    }
  }

  lemma DecodeStep(d: Pairs, rest: string)
    requires rest != ""
    ensures DecodeOnto(d, rest) == DecodeOnto(DecodeAt(d, rest), After(rest, '&'))
  {
    EqInPart(d, rest);
  }

  function Tail(url: string, data: nat): string {
    if data < |url| then url[data..] else ""
  }

  lemma TailBounds(url: string)
    ensures Tail(url, 0) == url
    ensures forall data: nat :: data >= |url| ==> Tail(url, data) == ""
  {
  }

  lemma DecodeEnd(d: Pairs)
    ensures DecodeOnto(d, "") == d
  {
  }

  lemma TailAfter(url: string, data: nat)
    requires data < |url|
    ensures Tail(url, data) == url[data..]
    ensures After(url[data..], '&') == Tail(url, data + IndexOf(url[data..], '&') + 1)
  {
  }

  class Dictionary {
    var elements: Pairs

    constructor ()
      ensures elements == []
    {
      elements := [];
    }

    method Put(key: string, value: string)
      modifies this
      ensures elements == PutPair(old(elements), key, value)
    {
      var i := 0;
      while i < |elements|
        invariant 0 <= i <= |elements| && elements == old(elements)
        invariant forall j :: 0 <= j < i ==> elements[j].key != key
      {
        if elements[i].key == key {
          FindPrefix(elements, key, i);
          elements := elements[i := elements[i].(value := value)];
          return;
        }
        i := i + 1;
      }
      FindPrefix(elements, key, i);
      elements := elements + [Pair(key, value)];
    }

    method Get(key: string) returns (value: Option<string>)
      ensures value == Lookup(elements, key)
    {
      var i := 0;
      while i < |elements|
        invariant 0 <= i <= |elements|
        invariant forall j :: 0 <= j < i ==> elements[j].key != key
      {
        FindPrefix(elements, key, i);
        if elements[i].key == key {
          return Some(elements[i].value);
        }
        i := i + 1;
      }
      FindPrefix(elements, key, i);
      return None;
    }

    method Remove(key: string)
      modifies this
      ensures elements == RemoveKey(old(elements), key)
    {
      var i := 0;
      while i < |elements|
        invariant 0 <= i <= |elements| && elements == old(elements)
        invariant forall j :: 0 <= j < i ==> elements[j].key != key
      {
        FindPrefix(elements, key, i);
        if elements[i].key == key {
          elements := elements[..i] + elements[i + 1..];
          return;
        }
        i := i + 1;
      }
      FindPrefix(elements, key, i);
    }

    method EncodeWith(sep1: char, sep2: char) returns (buf: string)
      requires BytePairs(elements)
      ensures buf == EncodePairs(elements, sep1, sep2)
    {
      hide UrlEscape;
      buf := "";
      var i := 0;
      while i < |elements|
        invariant 0 <= i <= |elements|
        invariant buf == EncodePairs(elements[..i], sep1, sep2)
      {
        assert elements[..i + 1] == elements[..i] + [elements[i]];
        EncodeSnoc(elements[..i], elements[i], sep1, sep2);
        if i > 0 {
          buf := buf + [sep1];
        }
        var key := EncodeUrl(elements[i].key);
        var value := EncodeUrl(elements[i].value);
        buf := buf + (key + [sep2] + value);
        i := i + 1;
      }
      assert elements[..i] == elements;
    }

    method Encode() returns (buf: string)
      requires BytePairs(elements)
      ensures buf == EncodePairs(elements, '&', '=')
    {
      buf := EncodeWith('&', '=');
    }

    method EncodeSimple() returns (buf: string)
      requires BytePairs(elements)
      ensures buf == EncodePairs(elements, '/', '/')
    {
      buf := EncodeWith('/', '/');
    }

    method Decode(url: string)
      modifies this
      ensures elements == DecodeOnto(old(elements), url)
    {
      hide DecodeOnto, DecodeAt, IndexOf, After, Tail;
      var data := 0;
      ghost var result := DecodeOnto(elements, url);
      TailBounds(url);
      while data < |url|
        invariant 0 <= data <= |url| + 1
        invariant DecodeOnto(elements, Tail(url, data)) == result
        decreases |url| - data
      {
        TailAfter(url, data);
        DecodeStep(elements, url[data..]);
        DecodeNext(url[data..]);
        data := data + IndexOf(url[data..], '&') + 1;
      }
      DecodeEnd(elements);
    }

    /** The body of that loop: the next part is put when it has a `=`. */
    method DecodeNext(rest: string)
      modifies this
      ensures elements == DecodeAt(old(elements), rest)
    {
      var ampPos := IndexOf(rest, '&');
      var eqPos := IndexOf(rest, '=');
      if eqPos < ampPos {
        var key := DecodeUrl(rest[..eqPos]);
        var value := DecodeUrl(rest[eqPos + 1..ampPos]);
        Put(key, value);
      }
    }

    method DecodeSimple(url: string)
      modifies this
      ensures elements == DecodeSimpleOnto(old(elements), url)
    {
      var last := 0;
      assert url[0..] == url;
      while true
        invariant 0 <= last <= |url|
        invariant DecodeSimpleOnto(elements, url[last..]) == DecodeSimpleOnto(old(elements), url)
        decreases |url| - last
      {
        var rest := url[last..];
        var pos := IndexOf(rest, '/');
        if pos == |rest| || pos == 0 {
          break;
        }
        var valueText := rest[pos + 1..];
        var end := IndexOf(valueText, '/');
        if end == 0 {
          break;
        }
        var key := DecodeUrl(rest[..pos]);
        var value := DecodeUrl(valueText[..end]);
        Put(key, value);
        last := last + pos + 1 + end + 1;
        if last >= |url| {
          assert After(valueText, '/') == "";
          break;
        }
        assert After(valueText, '/') == url[last..];
      }
    }

    method Clone() returns (copy: Dictionary)
      requires DistinctKeys(elements)
      ensures fresh(copy) && copy.elements == elements
    {
      copy := new Dictionary();
      var i := 0;
      while i < |elements|
        invariant 0 <= i <= |elements| && fresh(copy) && elements == old(elements)
        invariant copy.elements == elements[..i]
      {
        PutAllOntoEmpty(elements[..i]);
        forall j | 0 <= j < i
          ensures copy.elements[j].key != elements[i].key
        {
        }
        copy.Put(elements[i].key, elements[i].value);
        i := i + 1;
      }
    }

    method Merge(other: Dictionary)
      modifies this
      ensures elements == PutAll(old(elements), old(other.elements))
    {
      ghost var more := other.elements;
      var otherElements := other.elements;
      var i := 0;
      while i < |otherElements|
        invariant 0 <= i <= |otherElements| && otherElements == more
        invariant PutAll(elements, more[i..]) == PutAll(old(elements), more)
      {
        assert more[i..][1..] == more[i + 1..];
        Put(otherElements[i].key, otherElements[i].value);
        i := i + 1;
      }
    }

    method IsSubsetOf(other: Dictionary) returns (subset: bool)
      ensures subset <==> Subset(elements, other.elements)
    {
      var i := 0;
      while i < |elements|
        invariant 0 <= i <= |elements|
        invariant Subset(elements[..i], other.elements)
      {
        var value := other.Get(elements[i].key);
        if Some(elements[i].value) != value {
          return false;
        }
        i := i + 1;
      }
      return true;
    }

    method Equals(other: Dictionary) returns (same: bool)
      ensures same <==> SameMapping(elements, other.elements)
    {
      same := IsSubsetOf(other);
      if same {
        same := other.IsSubsetOf(this);
      }
    }
  }
}
