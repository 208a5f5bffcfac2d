/**
 The standard algorithms the library calls on its vectors, written out as the loops they are:
 std::remove_if, vector::erase of one position, and a sort by key.
 */
module StdAlgorithms {

  /** The elements a predicate does not drop, in order. */
  function Kept<T>(s: seq<T>, drop: T -> bool): (r: seq<T>)
    ensures |r| <= |s|
  {
    if s == [] then []
    else if drop(s[0]) then Kept(s[1..], drop)
    else [s[0]] + Kept(s[1..], drop)
  }

  lemma {:induction false} KeptAppend<T>(s: seq<T>, x: T, drop: T -> bool)
    ensures Kept(s + [x], drop) == Kept(s, drop) + (if drop(x) then [] else [x])
  {
    if s == [] {
      assert s + [x] == [x];
    } else {
      assert (s + [x])[1..] == s[1..] + [x];
      KeptAppend(s[1..], x, drop);
    }
  }

  lemma {:induction false} KeptAll<T>(s: seq<T>, drop: T -> bool)
    requires forall i :: 0 <= i < |s| ==> !drop(s[i])
    ensures Kept(s, drop) == s
  {
    if s != [] {
      KeptAll(s[1..], drop);
    }
  }

  /** When one position alone is dropped, what is kept is the sequence without that position. */
  lemma {:induction false} KeptWithoutOne<T>(s: seq<T>, drop: T -> bool, at: nat)
    requires at < |s| && drop(s[at])
    requires forall i :: 0 <= i < |s| && i != at ==> !drop(s[i])
    ensures Kept(s, drop) == s[..at] + s[at + 1..]
  {
    if at == 0 {
      KeptAll(s[1..], drop);
    } else {
      KeptWithoutOne(s[1..], drop, at - 1);
      assert s[..at] == [s[0]] + s[1..][..at - 1];
      assert s[1..][at - 1 + 1..] == s[at + 1..];
    }
  }

  lemma KeptNext<T>(s: seq<T>, i: nat, drop: T -> bool)
    requires i < |s|
    ensures Kept(s[..i + 1], drop) == Kept(s[..i], drop) + (if drop(s[i]) then [] else [s[i]])
  {
    assert s[..i + 1] == s[..i] + [s[i]];
    KeptAppend(s[..i], s[i], drop);
  }

  lemma PlacedAtEnd<T>(r: seq<T>, end: nat, i: nat)
    requires end <= i < |r|
    ensures r[end := r[i]][..end + 1] == r[..end] + [r[i]]
    ensures r[end := r[i]][i + 1..] == r[i + 1..]
  {
  }

  /** std::remove_if: moves the kept elements to the front; what follows the new end is left over. */
  method RemoveIf<T>(s: seq<T>, drop: T -> bool) returns (r: seq<T>, newEnd: nat)
    ensures |r| == |s| && newEnd <= |s|
    ensures r[..newEnd] == Kept(s, drop)
  {
    r, newEnd := s, 0;
    for i := 0 to |s|
      invariant newEnd <= i && |r| == |s|
      invariant r[..newEnd] == Kept(s[..i], drop)
      invariant r[i..] == s[i..]
    {
      assert r[i] == r[i..][0] == s[i];
      KeptNext(s, i, drop);
      if !drop(r[i]) {
        PlacedAtEnd(r, newEnd, i);
        r := r[newEnd := r[i]];
        newEnd := newEnd + 1;
      }
    }
    assert s[..|s|] == s;
  }

  /** vector::erase of the element at one valid position. */
  function EraseAt<T>(s: seq<T>, at: nat): (r: seq<T>)
    requires at < |s|
    ensures |r| == |s| - 1
  {
    s[..at] + s[at + 1..]
  }

  function Swapped<T>(s: seq<T>, i: nat, j: nat): (r: seq<T>)
    requires i < j < |s|
    ensures |r| == |s|
  {
    s[i := s[j]][j := s[i]]
  }

  lemma SwappedIsPermutation<T>(s: seq<T>, i: nat, j: nat)
    requires i < j < |s|
    ensures multiset(Swapped(s, i, j)) == multiset(s)
  {
  }

  ghost predicate SortedByKey<V(!new)>(s: seq<(int, V)>, hole: nat, end: nat)
    requires end <= |s|
  {
    forall a, b :: 0 <= a < b < end && b != hole ==> s[a].0 <= s[b].0
  }

  /** Letting the element in the hole sink by one place. */
  lemma SinkKeepsSorted<V(!new)>(s: seq<(int, V)>, j: nat, end: nat)
    requires 0 < j < end <= |s| && SortedByKey(s, j, end) && s[j].0 < s[j - 1].0
    ensures SortedByKey(Swapped(s, j - 1, j), j - 1, end)
  {
    var r := Swapped(s, j - 1, j);
    assert forall k :: 0 <= k < |s| && k != j - 1 && k != j ==> r[k] == s[k];
    forall a, b | 0 <= a < b < end && b != j - 1
      ensures r[a].0 <= r[b].0
    {
    }
  }

  /** Sorting by the first component, smallest key first (std::sort with that comparison). */
  method SortByKey<V(!new)>(s: seq<(int, V)>) returns (r: seq<(int, V)>)
    ensures multiset(r) == multiset(s)
    ensures forall i, j :: 0 <= i < j < |r| ==> r[i].0 <= r[j].0
  {
    r := s;
    for i := 0 to |s|
      invariant |r| == |s| && multiset(r) == multiset(s)
      invariant SortedByKey(r, |s|, i)
    {
      var j := i;
      while j > 0 && r[j].0 < r[j - 1].0
        invariant 0 <= j <= i && |r| == |s| && multiset(r) == multiset(s)
        invariant SortedByKey(r, j, i + 1)
      {
        SwappedIsPermutation(r, j - 1, j);
        SinkKeepsSorted(r, j, i + 1);
        r := Swapped(r, j - 1, j);
        j := j - 1;
      }
    }
  }
}
