/** A text standing in a string at a position: the vocabulary shared by the parsers and splitters. */
module Texts {

  /** The text x stands in s at position p. */
  predicate At(s: string, p: nat, x: string) {
    p + |x| <= |s| && forall i :: 0 <= i < |x| ==> s[p + i] == x[i]
  }

  lemma AtSplit(s: string, p: nat, x: string, y: string)
    requires At(s, p, x + y)
    ensures At(s, p, x) && At(s, p + |x|, y)
  {
    assert forall i :: 0 <= i < |x| ==> (x + y)[i] == x[i];
    forall i | 0 <= i < |y|
      ensures s[p + |x| + i] == y[i]
    {
      assert s[p + (|x| + i)] == (x + y)[|x| + i];
    }
  }

  lemma AtJoin(s: string, p: nat, x: string, y: string)
    requires At(s, p, x) && At(s, p + |x|, y)
    ensures At(s, p, x + y)
  {
    forall i | 0 <= i < |x + y|
      ensures s[p + i] == (x + y)[i]
    {
      if i >= |x| {
        assert s[p + |x| + (i - |x|)] == y[i - |x|];
      }
    }
  }

  /** A text stands inside another exactly when it stands where that other one does. */
  lemma AtWithin(s: string, p: nat, x: string, i: nat, y: string)
    requires At(s, p, x) && i + |y| <= |x|
    ensures At(x, i, y) <==> At(s, p + i, y)
  {
    if At(x, i, y) {
      forall k | 0 <= k < |y|
        ensures s[p + i + k] == y[k]
      {
        assert s[p + (i + k)] == x[i + k];
      }
    }
    if At(s, p + i, y) {
      forall k | 0 <= k < |y|
        ensures x[i + k] == y[k]
      {
        assert s[p + (i + k)] == x[i + k];
        assert s[p + i + k] == y[k];
      }
    }
  }

  lemma AtSlice(s: string, p: nat, x: string)
    requires At(s, p, x)
    ensures s[p..p + |x|] == x
  {
  }

  lemma SliceIsAt(s: string, p: nat, q: nat)
    requires p <= q <= |s|
    ensures At(s, p, s[p..q])
  {
  }

  lemma AtChar(s: string, p: nat, c: char)
    requires At(s, p, [c])
    ensures s[p] == c
  {
    assert s[p + 0] == [c][0];
  }

  /** How far the text reaches up to and including the last c; 0 without one. */
  function LastOf(s: string, c: char): (n: nat)
    ensures n <= |s| && c !in s[n..]
    ensures n > 0 ==> s[n - 1] == c
  {
    if s == "" then 0
    else if s[|s| - 1] == c then |s|
    else
      var n := LastOf(s[..|s| - 1], c);
      assert s[n..] == s[..|s| - 1][n..] + [s[|s| - 1]];
      n
  }

  lemma NoneBehind(s: string, c: char, n: nat)
    requires n <= |s| && c !in s[n..]
    ensures forall i :: n <= i < |s| ==> s[i] != c
  {
    forall i | n <= i < |s|
      ensures s[i] != c
    {
      assert s[n..][i - n] == s[i];
    }
  }

  lemma LastOfIs(s: string, c: char, n: nat)
    requires n <= |s| && c !in s[n..] && (n > 0 ==> s[n - 1] == c)
    ensures LastOf(s, c) == n
  {
    var m := LastOf(s, c);
    NoneBehind(s, c, m);
    NoneBehind(s, c, n);
  }

  /** What stands in front of a last c does not move it. */
  lemma LastOfJoin(a: string, c: char, b: string)
    requires c !in b
    ensures LastOf(a + [c] + b, c) == |a| + 1
  {
    assert (a + [c] + b)[|a| + 1..] == b;
    LastOfIs(a + [c] + b, c, |a| + 1);
  }
}
