/** Sequences: Array::removeUnordered, which the URL cache and the watch lists use, and appending. */
module Arrays {

  lemma AppendAssociates<T>(a: seq<T>, b: seq<T>, c: seq<T>)
    ensures a + (b + c) == (a + b) + c
  {
  }

  lemma Rejoin<T>(s: seq<T>, n: nat)
    requires n <= |s|
    ensures s[..n] + s[n..] == s
  {
  }

  lemma PrefixOfSum<T>(s: seq<T>, t: seq<T>, n: nat)
    requires n <= |s| + |t|
    ensures (s + t)[..n] == if n <= |s| then s[..n] else s + t[..n - |s|]
  {
  }

  lemma SlicePrefix<T>(s: seq<T>, at: nat, n: nat, m: nat)
    requires n <= m && at + m <= |s|
    ensures s[at..at + n] == s[at..at + m][..n]
  {
  }

  /** The last element takes the place of the removed one. */
  function RemoveUnordered<T>(s: seq<T>, i: nat): (r: seq<T>)
    requires i < |s|
    ensures |r| == |s| - 1
  {
    if i == |s| - 1 then s[..i] else s[i := s[|s| - 1]][..|s| - 1]
  }

  /** The parts that move, for an element inside and for the last one. */
  lemma RemoveInner<T>(s: seq<T>, i: nat)
    requires i < |s| - 1
    ensures RemoveUnordered(s, i) == s[..i] + ([s[|s| - 1]] + s[i + 1..|s| - 1])
    ensures s == s[..i] + ([s[i]] + (s[i + 1..|s| - 1] + [s[|s| - 1]]))
  {
  }

  lemma RemoveLast<T>(s: seq<T>)
    requires s != []
    ensures RemoveUnordered(s, |s| - 1) == s[..|s| - 1] && s == s[..|s| - 1] + [s[|s| - 1]]
  {
  }

  /** One occurrence of the element goes, and the last element takes its place; everything else stays. */
  lemma RemoveParts<T>(s: seq<T>, i: nat)
    requires i < |s|
    ensures i < |s| - 1 ==> RemoveUnordered(s, i) == s[..i] + ([s[|s| - 1]] + s[i + 1..|s| - 1])
    ensures i == |s| - 1 ==> RemoveUnordered(s, i) == s[..i]
    ensures multiset(RemoveUnordered(s, i)) == multiset(s) - multiset{s[i]}
  {
    hide RemoveUnordered;
    var n := |s| - 1;
    if i < n {
      RemoveInner(s, i);
      Exchanged(s[..i], s[i], s[i + 1..n], s[n]);
    } else {
      RemoveLast(s);
      assert multiset(s[..n] + [s[n]]) == multiset(s[..n]) + multiset{s[n]};
    }
  }

  lemma Exchanged<T>(a: seq<T>, x: T, b: seq<T>, y: T)
    ensures multiset(a + ([y] + b)) == multiset(a + ([x] + (b + [y]))) - multiset{x}
  {
    assert multiset(a + ([y] + b)) == multiset(a) + (multiset{y} + multiset(b));
    assert multiset(a + ([x] + (b + [y]))) == multiset(a) + (multiset{x} + (multiset(b) + multiset{y}));
  }
}
