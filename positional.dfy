/**
 * Positional addressing of an ordered collection: a record's only identity is
 * its zero-based index. These are the array operations the handlers apply to a
 * loaded JSON array: indexed replace (`a[i] = x`) and `splice(i, 1)`.
 */
module Positional {

  /** `a[i] = x` on an array of length greater than `i`. */
  function ReplaceAt<T>(s: seq<T>, i: nat, x: T): (r: seq<T>)
    requires i < |s|
    ensures |r| == |s|
    ensures r[i] == x
    ensures forall j :: 0 <= j < |s| && j != i ==> r[j] == s[j]
  {
    s[i := x]
  }

  /** `a.splice(i, 1)`: drop position `i`, later elements move down by one. */
  function RemoveAt<T>(s: seq<T>, i: nat): (r: seq<T>)
    requires i < |s|
    ensures |r| == |s| - 1
    ensures forall j :: 0 <= j < i ==> r[j] == s[j]
    ensures forall j :: i <= j < |r| ==> r[j] == s[j + 1]
  {
    s[..i] + s[i + 1..]
  }

  /** `a.splice(i, 0, x)`: the inverse of RemoveAt. */
  function InsertAt<T>(s: seq<T>, i: nat, x: T): (r: seq<T>)
    requires i <= |s|
    ensures |r| == |s| + 1
    ensures r[i] == x
    ensures forall j :: 0 <= j < i ==> r[j] == s[j]
    ensures forall j :: i < j < |r| ==> r[j] == s[j - 1]
  {
    s[..i] + [x] + s[i..]
  }

  /** Putting back the removed element restores the collection exactly. */
  lemma RemoveThenInsert<T>(s: seq<T>, i: nat)
    requires i < |s|
    ensures InsertAt(RemoveAt(s, i), i, s[i]) == s
  {
  }

  /** Removing what was just inserted gives the collection back. */
  lemma InsertThenRemove<T>(s: seq<T>, i: nat, x: T)
    requires i <= |s|
    ensures RemoveAt(InsertAt(s, i, x), i) == s
  {
  }

  /** A delete removes exactly one occurrence of the record that was at `i`. */
  lemma RemoveAtMultiset<T>(s: seq<T>, i: nat)
    requires i < |s|
    ensures multiset(RemoveAt(s, i)) == multiset(s) - multiset{s[i]}
  {
    assert s == s[..i] + [s[i]] + s[i + 1..];
    assert multiset(s) == multiset(s[..i]) + multiset{s[i]} + multiset(s[i + 1..]);
  }

  /** Writing back the record that was already at `i` changes nothing. */
  lemma ReplaceWithSame<T>(s: seq<T>, i: nat)
    requires i < |s|
    ensures ReplaceAt(s, i, s[i]) == s
  {
  }

  /** Of two replaces at the same index, the last one wins. */
  lemma ReplaceTwice<T>(s: seq<T>, i: nat, x: T, y: T)
    requires i < |s|
    ensures ReplaceAt(ReplaceAt(s, i, x), i, y) == ReplaceAt(s, i, y)
  {
  }

  /** Pushing records one at a time, as successive appends do. */
  function PushAll<T>(s: seq<T>, xs: seq<T>): (r: seq<T>)
    decreases |xs|
  {
    if xs == [] then s else PushAll(s + [xs[0]], xs[1..])
  }

  /** Repeated appends keep insertion order: the result is the old records followed by the new ones in order. */
  lemma {:induction false} PushAllInOrder<T>(s: seq<T>, xs: seq<T>)
    ensures PushAll(s, xs) == s + xs
    decreases |xs|
  {
    if xs != [] {
      PushAllInOrder(s + [xs[0]], xs[1..]);
      assert s + [xs[0]] + xs[1..] == s + xs;
    }
  }
}
