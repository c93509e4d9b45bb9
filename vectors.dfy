/**
 * The vector operations the settings editor's view models use on their
 * observable entry lists: IndexOf (the first index holding an element),
 * RemoveAt and InsertAt. Lists are values here; a view model reassigns
 * its list field with the result.
 */
module Vectors {
  import opened Wrappers

  /** The first index of s that holds x; None when x does not occur. */
  function IndexOf<T(==)>(s: seq<T>, x: T): (r: Option<nat>)
    ensures r.None? <==> x !in s
    ensures r.Some? ==> r.value < |s| && s[r.value] == x && x !in s[..r.value]
  {
    if s == [] then None
    else if s[0] == x then Some(0)
    else match IndexOf(s[1..], x)
      case None => None
      case Some(i) =>
        assert s[1..][..i] == s[1..i + 1];
        assert s[..i + 1] == [s[0]] + s[1..i + 1];
        Some(i + 1)
  }

  /** s without the element at index i. */
  function RemoveAt<T>(s: seq<T>, i: nat): (r: seq<T>)
    requires i < |s|
    ensures |r| == |s| - 1
    ensures forall k :: 0 <= k < i ==> r[k] == s[k]
    ensures forall k :: i <= k < |r| ==> r[k] == s[k + 1]
  {
    s[..i] + s[i + 1..]
  }

  /** s with x inserted before index i (appended when i == |s|). */
  function InsertAt<T>(s: seq<T>, i: nat, x: T): (r: seq<T>)
    requires i <= |s|
    ensures |r| == |s| + 1 && r[i] == x
    ensures forall k :: 0 <= k < i ==> r[k] == s[k]
    ensures forall k :: i < k < |r| ==> r[k] == s[k - 1]
  {
    s[..i] + [x] + s[i..]
  }

  /** Removing the element at i and putting x back at i restores s when s[i] == x. */
  lemma InsertAtRemoveAt<T>(s: seq<T>, i: nat)
    requires i < |s|
    ensures InsertAt(RemoveAt(s, i), i, s[i]) == s
  {
  }

  /** Moving the element at i one place towards the front swaps it with its predecessor. */
  lemma MoveUpSwaps<T>(s: seq<T>, i: nat)
    requires 0 < i < |s|
    ensures InsertAt(RemoveAt(s, i), i - 1, s[i]) == s[i - 1 := s[i]][i := s[i - 1]]
  {
    var r, t := InsertAt(RemoveAt(s, i), i - 1, s[i]), s[i - 1 := s[i]][i := s[i - 1]];
    assert forall k :: 0 <= k < |r| ==> r[k] == t[k];
  }

  /** Moving the element at i one place towards the back swaps it with its successor. */
  lemma MoveDownSwaps<T>(s: seq<T>, i: nat)
    requires i + 1 < |s|
    ensures InsertAt(RemoveAt(s, i), i + 1, s[i]) == s[i := s[i + 1]][i + 1 := s[i]]
  {
    var r, t := InsertAt(RemoveAt(s, i), i + 1, s[i]), s[i := s[i + 1]][i + 1 := s[i]];
    assert forall k :: 0 <= k < |r| ==> r[k] == t[k];
  }

  /** Removing an element takes exactly one copy of it out of the multiset of elements. */
  lemma RemoveAtMultiset<T>(s: seq<T>, i: nat)
    requires i < |s|
    ensures multiset(RemoveAt(s, i)) + multiset{s[i]} == multiset(s)
  {
    assert s == s[..i] + [s[i]] + s[i + 1..];
  }

  /** Inserting an element adds exactly one copy of it to the multiset of elements. */
  lemma InsertAtMultiset<T>(s: seq<T>, i: nat, x: T)
    requires i <= |s|
    ensures multiset(InsertAt(s, i, x)) == multiset(s) + multiset{x}
  {
    assert s == s[..i] + s[i..];
  }

  /** s with its first occurrence of x removed; s itself when x does not occur. */
  function RemoveFirst<T(==)>(s: seq<T>, x: T): seq<T>
  {
    match IndexOf(s, x)
    case None => s
    case Some(i) => RemoveAt(s, i)
  }

  /**
   * RemoveFirst removes one copy of x when there is one and leaves s unchanged
   * otherwise; what it keeps is s with exactly that element cut out.
   */
  lemma RemoveFirstSpec<T>(s: seq<T>, x: T)
    ensures x !in s ==> RemoveFirst(s, x) == s
    ensures x in s ==> exists i :: 0 <= i < |s| && s[i] == x && x !in s[..i] &&
                                   RemoveFirst(s, x) == s[..i] + s[i + 1..]
    ensures x in s ==> multiset(RemoveFirst(s, x)) + multiset{x} == multiset(s)
  {
    if x in s {
      var i := IndexOf(s, x).value;
      RemoveAtMultiset(s, i);
    }
  }
}
