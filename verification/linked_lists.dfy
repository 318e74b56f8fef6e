/** The `java.util.LinkedList` operations the inventory uses, on sequences.
    Object equality (`equals`) is value equality here. */
module LinkedLists {
  import opened Wrappers

  /** The index of the first element equal to `x`, or `None` when there is
      none (the search `LinkedList.remove(Object)` and a for-each lookup do). */
  function FirstIndex<T(==)>(s: seq<T>, x: T): (r: Option<nat>)
    ensures r.Some? ==> r.value < |s| && s[r.value] == x
    ensures r.Some? ==> forall k :: 0 <= k < r.value ==> s[k] != x
    ensures r.None? <==> x !in s
  {
    if |s| == 0 then None
    else if s[0] == x then Some(0)
    else match FirstIndex(s[1..], x)
      case Some(k) => Some(k + 1)
      case None => None
  }

  /** `LinkedList.remove(int)`: drop the element at index `i`. */
  function RemoveAt<T>(s: seq<T>, i: int): (r: seq<T>)
    requires 0 <= i < |s|
    ensures |r| == |s| - 1
    ensures forall k :: 0 <= k < i ==> r[k] == s[k]
    ensures forall k :: i <= k < |r| ==> r[k] == s[k + 1]
    ensures multiset(r) == multiset(s) - multiset{s[i]}
  {
    assert s == s[..i] + [s[i]] + s[i + 1..];
    s[..i] + s[i + 1..]
  }

  /** `LinkedList.remove(Object)`: drop the first element equal to `x`, if any. */
  function RemoveFirst<T(==)>(s: seq<T>, x: T): (r: seq<T>)
    ensures x in s ==> |r| == |s| - 1
    ensures x !in s ==> r == s
    ensures multiset(r) == multiset(s) - multiset{x}
    ensures x in s ==> var k := FirstIndex(s, x).value;
      r[..k] == s[..k] && r[k..] == s[k + 1..]
  {
    match FirstIndex(s, x)
    case Some(k) => RemoveAt(s, k)
    case None => s
  }

  /** Removing the element just appended gives back the original sequence. */
  lemma RemoveAtAppended<T>(s: seq<T>, x: T)
    ensures RemoveAt(s + [x], |s|) == s
  {
  }

  /** Every element left by `RemoveFirst` was an element of the original. */
  lemma RemoveFirstKeepsOthers<T>(s: seq<T>, x: T)
    ensures forall k :: 0 <= k < |RemoveFirst(s, x)| ==> RemoveFirst(s, x)[k] in s
  {
    var r := RemoveFirst(s, x);
    forall k | 0 <= k < |r|
      ensures r[k] in s
    {
      assert r[k] in multiset(r);
    }
  }

  /** Appending after `RemoveFirst` leaves the elements before the removed
      occurrence in place and those after it shifted down by one. */
  lemma RemoveFirstThenAppend<T>(s: seq<T>, x: T, tail: seq<T>)
    requires x in s
    ensures var k := FirstIndex(s, x).value;
      var r := RemoveFirst(s, x) + tail;
      r[..k] == s[..k] && r[k .. |s| - 1] == s[k + 1..]
  {
    var k := FirstIndex(s, x).value;
    var rest := RemoveFirst(s, x);
    assert (rest + tail)[..k] == rest[..k];
    assert (rest + tail)[k .. |s| - 1] == rest[k..];
  }
}
