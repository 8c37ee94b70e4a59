/**
 A JavaScript object used as a map: keys stay in the order of their first assignment, and a later
 assignment to a key replaces its value in place.
 */
module OrderedMap {

  /** Position of the first entry under the key, or the number of entries. */
  function KeyIndex<T>(key: T -> string, entries: seq<T>, k: string): (i: nat)
    ensures i <= |entries|
    ensures forall j :: 0 <= j < i ==> key(entries[j]) != k
    ensures i < |entries| ==> key(entries[i]) == k
  {
    if entries == [] || key(entries[0]) == k then 0 else 1 + KeyIndex(key, entries[1..], k)
  }

  function Assign<T>(key: T -> string, entries: seq<T>, x: T): seq<T> {
    var i := KeyIndex(key, entries, key(x));
    if i < |entries| then entries[i := x] else entries + [x]
  }

  /** The entries after one assignment for each element. */
  function Assigned<T>(key: T -> string, xs: seq<T>): seq<T>
    decreases |xs|
  {
    if xs == [] then [] else Assign(key, Assigned(key, xs[..|xs| - 1]), xs[|xs| - 1])
  }

  ghost predicate KeysDistinct<T>(key: T -> string, xs: seq<T>) {
    forall i, j :: 0 <= i < j < |xs| ==> key(xs[i]) != key(xs[j])
  }

  /** No later element has the key of element i. */
  ghost predicate LastUnder<T>(key: T -> string, xs: seq<T>, i: nat) {
    i < |xs| && forall j :: i < j < |xs| ==> key(xs[j]) != key(xs[i])
  }

  /** The last element under its key. */
  ghost predicate IsLast<T>(key: T -> string, xs: seq<T>, x: T) {
    exists i: nat :: LastUnder(key, xs, i) && xs[i] == x
  }

  /** The keys of the entries are in the order in which they first appear among the elements. */
  ghost predicate InOrder<T>(key: T -> string, xs: seq<T>, entries: seq<T>) {
    forall i, j :: 0 <= i < j < |entries| ==>
      KeyIndex(key, xs, key(entries[i])) < KeyIndex(key, xs, key(entries[j])) < |xs|
  }

  lemma {:induction false} LastExists<T>(key: T -> string, xs: seq<T>, i: nat) returns (last: nat)
    requires i < |xs|
    ensures LastUnder(key, xs, last) && key(xs[last]) == key(xs[i])
    decreases |xs| - i
  {
    if LastUnder(key, xs, i) {
      last := i;
    } else {
      var j :| i < j < |xs| && key(xs[j]) == key(xs[i]);
      last := LastExists(key, xs, j);
    }
  }

  lemma IsLastSnoc<T>(key: T -> string, front: seq<T>, x: T, y: T)
    ensures IsLast(key, front + [x], y) <==> y == x || (IsLast(key, front, y) && key(y) != key(x))
  {
    var xs := front + [x];
    assert LastUnder(key, xs, |front|) && xs[|front|] == x;
    if IsLast(key, xs, y) && y != x {
      var i: nat :| LastUnder(key, xs, i) && xs[i] == y;
      assert i < |front| && key(xs[|front|]) != key(xs[i]);
      forall j | i < j < |front| ensures key(front[j]) != key(front[i]) { assert xs[j] == front[j]; }
      assert LastUnder(key, front, i) && front[i] == y;
    }
    if IsLast(key, front, y) && key(y) != key(x) {
      var i: nat :| LastUnder(key, front, i) && front[i] == y;
      assert LastUnder(key, xs, i) && xs[i] == y;
    }
  }

  lemma AssignMembers<T>(key: T -> string, entries: seq<T>, x: T)
    requires KeysDistinct(key, entries)
    ensures KeysDistinct(key, Assign(key, entries, x))
    ensures forall y :: y in Assign(key, entries, x) <==> y == x || (y in entries && key(y) != key(x))
  {
    var (k, after) := (KeyIndex(key, entries, key(x)), Assign(key, entries, x));
    assert after[k] == x;
    forall y | y in entries && key(y) != key(x) ensures y in after {
      var i :| 0 <= i < |entries| && entries[i] == y;
      assert after[i] == y;
    }
    forall y | y in after && y != x ensures y in entries && key(y) != key(x) {
      var i :| 0 <= i < |after| && after[i] == y;
      assert i != k && entries[i] == y;
    }
  }

  lemma KeyIndexSnoc<T>(key: T -> string, front: seq<T>, x: T, k: string)
    ensures KeyIndex(key, front + [x], k) ==
      if KeyIndex(key, front, k) < |front| then KeyIndex(key, front, k)
      else if key(x) == k then |front| else |front| + 1
  {
    var xs := front + [x];
    assert xs[|front|] == x && forall i :: 0 <= i < |front| ==> xs[i] == front[i];
  }

  /** Every key of the elements has an entry. */
  ghost predicate Covers<T>(key: T -> string, xs: seq<T>, entries: seq<T>) {
    && (forall i :: 0 <= i < |xs| ==> KeyIndex(key, entries, key(xs[i])) < |entries|)
    && (forall i :: 0 <= i < |entries| ==> KeyIndex(key, xs, key(entries[i])) < |xs|)
  }

  lemma AssignKeepsOrder<T>(key: T -> string, front: seq<T>, x: T, entries: seq<T>)
    requires InOrder(key, front, entries) && Covers(key, front, entries)
    ensures InOrder(key, front + [x], Assign(key, entries, x))
  {
    var (k, after) := (KeyIndex(key, entries, key(x)), Assign(key, entries, x));
    forall i | 0 <= i < |after|
      ensures i < |entries| ==>
        KeyIndex(key, front + [x], key(after[i])) == KeyIndex(key, front, key(entries[i])) < |front|
      ensures i == |entries| ==> KeyIndex(key, front + [x], key(after[i])) == |front|
    {
      KeyIndexSnoc(key, front, x, key(after[i]));
      if i == |entries| {
        forall j | 0 <= j < |front| ensures key(front[j]) != key(x) {
          assert KeyIndex(key, entries, key(front[j])) < |entries|;
        }
      }
    }
  }

  /** With members known by their keys, entries and elements cover each other. */
  lemma LastsCover<T>(key: T -> string, xs: seq<T>, entries: seq<T>)
    requires forall x :: x in entries <==> IsLast(key, xs, x)
    ensures Covers(key, xs, entries)
  {
    forall i | 0 <= i < |xs| ensures KeyIndex(key, entries, key(xs[i])) < |entries| {
      var last := LastExists(key, xs, i);
      assert xs[last] in entries;
    }
    forall i | 0 <= i < |entries| ensures KeyIndex(key, xs, key(entries[i])) < |xs| {
      assert entries[i] in entries;
      var j: nat :| LastUnder(key, xs, j) && xs[j] == entries[i];
    }
  }

  /** What is left: for each key the last element, in the order in which the keys first appeared. */
  lemma {:induction false} AssignedMeaning<T>(key: T -> string, xs: seq<T>)
    ensures var entries := Assigned(key, xs);
      && KeysDistinct(key, entries)
      && (forall x :: x in entries <==> IsLast(key, xs, x))
      && InOrder(key, xs, entries)
    decreases |xs|
  {
    if xs == [] {
    } else {
      var (front, last) := (xs[..|xs| - 1], xs[|xs| - 1]);
      assert xs == front + [last];
      AssignedMeaning(key, front);
      var entries := Assigned(key, front);
      AssignMembers(key, entries, last);
      forall x ensures IsLast(key, xs, x) <==> x == last || (IsLast(key, front, x) && key(x) != key(last)) {
        IsLastSnoc(key, front, last, x);
      }
      LastsCover(key, front, entries);
      AssignKeepsOrder(key, front, last, entries);
    }
  }

  /** Nothing is lost exactly when no key is used twice. */
  lemma {:induction false} AllAssignedIff<T>(key: T -> string, xs: seq<T>)
    ensures Assigned(key, xs) == xs <==> KeysDistinct(key, xs)
    decreases |xs|
  {
    AssignedMeaning(key, xs);
    if xs != [] && KeysDistinct(key, xs) {
      var (front, last) := (xs[..|xs| - 1], xs[|xs| - 1]);
      AllAssignedIff(key, front);
      assert forall i :: 0 <= i < |front| ==> key(front[i]) != key(last);
      assert front + [last] == xs;
    }
  }
}
