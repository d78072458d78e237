/** The tracked set of selectable subviews, kept as a duplicate-free sequence so
    that the order in which the view iterates over it is fixed. */
module Tracking {

  /** No element occurs twice. */
  predicate NoDuplicates<T(==)>(s: seq<T>) {
    forall i, j :: 0 <= i < j < |s| ==> s[i] != s[j]
  }

  /** `Set.insert`: an element already present leaves the sequence as it is;
      a new one goes at the end. */
  function Insert<T(==)>(s: seq<T>, x: T): (r: seq<T>)
    ensures x in r && forall y :: y in s ==> y in r
    ensures forall y :: y in r ==> y in s || y == x
    ensures s <= r
    ensures NoDuplicates(s) ==> NoDuplicates(r)
    ensures x in s ==> r == s
  {
    if x in s then s else s + [x]
  }

  /** `Set.remove`: every occurrence of `x` is dropped; the others keep their
      relative order. */
  function Remove<T(==)>(s: seq<T>, x: T): (r: seq<T>)
    ensures forall y :: y in s && y != x ==> y in r
    ensures forall y :: y in r ==> y in s && y != x
    ensures |r| <= |s|
    ensures NoDuplicates(s) ==> NoDuplicates(r)
    ensures x !in s ==> r == s
  {
    if s == [] then []
    else if s[0] == x then Remove(s[1..], x)
    else
      var rest := Remove(s[1..], x);
      assert NoDuplicates(s) ==> NoDuplicates(s[1..]) && s[0] !in rest;
      [s[0]] + rest
  }

  /** Removing an element from the end of a sequence that does not otherwise
      hold it gives back the sequence. */
  lemma {:induction false} RemoveLast<T>(s: seq<T>, x: T)
    requires x !in s
    ensures Remove(s + [x], x) == s
  {
    if s != [] {
      assert (s + [x])[1..] == s[1..] + [x];
      RemoveLast(s[1..], x);
    }
  }

  /** Inserting an untracked element and then removing it restores the tracked
      sequence exactly. */
  lemma InsertThenRemove<T>(s: seq<T>, x: T)
    requires x !in s
    ensures Remove(Insert(s, x), x) == s
  {
    RemoveLast(s, x);
  }
}
