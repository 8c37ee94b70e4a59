/** Removing elements from sequences, as the source's lists and arrays do it. */
module Sequences {

  ghost predicate NoRepeat<T>(s: seq<T>) {
    forall i, j :: 0 <= i < j < |s| ==> s[i] != s[j]
  }

  /** The one element stands before the other. */
  ghost predicate Precedes<T>(s: seq<T>, first: T, second: T) {
    exists a, b :: 0 <= a < b < |s| && s[a] == first && s[b] == second
  }

  function RemoveAt<T>(s: seq<T>, k: nat): seq<T>
    requires k < |s|
  {
    s[..k] + s[k + 1..]
  }

  /** Removes the first occurrence, if there is one. */
  function RemoveFirst<T(==)>(s: seq<T>, x: T): seq<T> {
    if s == [] then [] else if s[0] == x then s[1..] else [s[0]] + RemoveFirst(s[1..], x)
  }

  lemma RemoveAtIndex<T>(s: seq<T>, k: nat, i: nat)
    requires k < |s| && i < |s| - 1
    ensures RemoveAt(s, k)[i] == s[if i < k then i else i + 1]
  {
  }

  /** Removing a position loses at most that element. */
  lemma RemoveAtKeepsOthers<T>(s: seq<T>, k: nat)
    requires k < |s|
    ensures forall x :: x in RemoveAt(s, k) ==> x in s
    ensures forall x :: x in s && x != s[k] ==> x in RemoveAt(s, k)
  {
    forall x | x in s && x != s[k] ensures x in RemoveAt(s, k) {
      var i :| 0 <= i < |s| && s[i] == x;
      assert x == RemoveAt(s, k)[if i < k then i else i - 1];
    }
  }

  /** Two positions can be removed in either order. */
  lemma RemoveAtSwaps<T>(s: seq<T>, i: nat, j: nat)
    requires i < j < |s|
    ensures RemoveAt(RemoveAt(s, i), j - 1) == RemoveAt(RemoveAt(s, j), i)
  {
    var both := s[..i] + s[i + 1..j] + s[j + 1..];
    assert RemoveAt(RemoveAt(s, i), j - 1) == both;
    assert RemoveAt(RemoveAt(s, j), i) == both;
  }

  /** Without repetitions, removing a position removes exactly that element. */
  lemma RemoveAtMembers<T>(s: seq<T>, k: nat)
    requires k < |s| && NoRepeat(s)
    ensures NoRepeat(RemoveAt(s, k))
    ensures forall x :: x in RemoveAt(s, k) <==> x in s && x != s[k]
  {
    RemoveAtKeepsOthers(s, k);
  }

  /** Without repetitions, removing an element removes its position. */
  lemma {:induction false} RemoveFirstIsRemoveAt<T>(s: seq<T>, k: nat)
    requires k < |s| && NoRepeat(s)
    ensures RemoveFirst(s, s[k]) == RemoveAt(s, k)
  {
    if k == 0 {
    } else {
      assert s[0] != s[k] && s[1..][k - 1] == s[k];
      RemoveFirstIsRemoveAt(s[1..], k - 1);
    }
  }

  /** Without repetitions, removing an element leaves exactly the others. */
  lemma RemoveFirstMembers<T>(s: seq<T>, x: T)
    requires NoRepeat(s)
    ensures NoRepeat(RemoveFirst(s, x))
    ensures forall y :: y in RemoveFirst(s, x) <==> y in s && y != x
  {
    if x in s {
      var k :| 0 <= k < |s| && s[k] == x;
      RemoveFirstIsRemoveAt(s, k);
      RemoveAtMembers(s, k);
    } else {
      RemoveFirstAbsent(s, x);
    }
  }

  /** Removing an element takes out its first occurrence and leaves the rest in order. */
  lemma {:induction false} RemoveFirstMeaning<T>(before: seq<T>, x: T, behind: seq<T>)
    requires x !in before
    ensures RemoveFirst(before + [x] + behind, x) == before + behind
  {
    if before == [] {
      assert ([] + [x] + behind)[1..] == behind;
    } else {
      assert (before + [x] + behind)[1..] == before[1..] + [x] + behind;
      RemoveFirstMeaning(before[1..], x, behind);
      assert before == [before[0]] + before[1..];
    }
  }

  lemma {:induction false} RemoveFirstAbsent<T>(s: seq<T>, x: T)
    requires x !in s
    ensures RemoveFirst(s, x) == s
  {
    if s == [] {
    } else {
      RemoveFirstAbsent(s[1..], x);
    }
  }
}
