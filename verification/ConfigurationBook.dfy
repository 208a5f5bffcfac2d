/**
 Splitting a configuration value at a separator (Configuration/ConfigurationBook.hpp, collectionFor).
 */
module ConfigurationBook {
  import opened Options
  import opened Texts

  predicate Occurs(s: string, sep: string, i: nat) {
    At(s, i, sep)
  }

  /** The searcher: the first occurrence at or after `from`, or the end. */
  function FindSeparator(s: string, sep: string, from: nat): (pos: nat)
    requires from <= |s|
    ensures from <= pos <= |s|
    decreases |s| - from
  {
    if from == |s| || Occurs(s, sep, from) then from else FindSeparator(s, sep, from + 1)
  }

  lemma {:induction false} FindSeparatorFinds(s: string, sep: string, from: nat)
    requires from <= |s|
    ensures var pos := FindSeparator(s, sep, from);
      && (pos < |s| ==> Occurs(s, sep, pos))
      && (forall i :: from <= i < pos ==> !Occurs(s, sep, i))
    decreases |s| - from
  {
    if from < |s| && !Occurs(s, sep, from) {
      FindSeparatorFinds(s, sep, from + 1);
    }
  }

  lemma {:induction false} FindSeparatorIs(s: string, sep: string, from: nat, pos: nat)
    requires from <= pos <= |s| && sep != "" && (pos < |s| ==> Occurs(s, sep, pos))
    requires forall i :: from <= i < pos ==> !Occurs(s, sep, i)
    ensures FindSeparator(s, sep, from) == pos
    decreases pos - from
  {
    if from < pos {
      FindSeparatorIs(s, sep, from + 1, pos);
    }
  }

  /** Behind an occurrence; a failed search answers the end twice. */
  function Behind(s: string, sep: string, pos: nat): (after: nat)
    requires pos <= |s| && (pos < |s| ==> Occurs(s, sep, pos))
    ensures pos <= after <= |s| && (pos < |s| && sep != "" ==> pos < after)
  {
    if pos == |s| then |s| else pos + |sep|
  }

  function After(s: string, sep: string, start: nat): (after: nat)
    requires start < |s|
    ensures start <= after <= |s| && (sep != "" ==> start < after)
  {
    FindSeparatorFinds(s, sep, start);
    Behind(s, sep, FindSeparator(s, sep, start))
  }

  /** The pieces from `start` on. */
  function Split(s: string, sep: string, start: nat): seq<string>
    requires start <= |s| && (sep != "" || start == |s|)
    decreases |s| - start
  {
    if start == |s| then []
    else [s[start..FindSeparator(s, sep, start)]] + Split(s, sep, After(s, sep, start))
  }

  method Search(s: string, sep: string, from: nat) returns (pos: nat, after: nat)
    requires from <= |s|
    ensures pos == FindSeparator(s, sep, from) && (pos < |s| ==> Occurs(s, sep, pos))
    ensures after == Behind(s, sep, pos)
  {
    FindSeparatorFinds(s, sep, from);
    pos := from;
    while pos < |s| && !Occurs(s, sep, pos)
      invariant from <= pos <= |s|
      invariant FindSeparator(s, sep, from) == FindSeparator(s, sep, pos)
    {
      pos := pos + 1;
    }
    after := if pos == |s| then |s| else pos + |sep|;
  }

  // ---------- the loop comes to its end ----------

  /** Where the loop stands after so many turns. */
  function Cursor(s: string, sep: string, turns: nat): (start: nat)
    ensures start <= |s|
  {
    if turns == 0 then 0
    else
      var start := Cursor(s, sep, turns - 1);
      if start == |s| then start else After(s, sep, start)
  }

  ghost predicate LoopEnds(s: string, sep: string) {
    exists turns :: Cursor(s, sep, turns) == |s|
  }

  lemma {:induction false} CursorAdvances(s: string, sep: string, turns: nat)
    requires sep != ""
    ensures Cursor(s, sep, turns) == |s| || Cursor(s, sep, turns) >= turns
  {
    if turns > 0 {
      CursorAdvances(s, sep, turns - 1);
    }
  }

  lemma {:induction false} CursorIsStuck(s: string, turns: nat)
    requires s != ""
    ensures Cursor(s, "", turns) == 0
  {
    if turns > 0 {
      CursorIsStuck(s, turns - 1);
      assert Occurs(s, "", 0);
    }
  }

  /**
   The loop ends for every text exactly when the separator is not empty; the empty one only ends it on an empty text.
   */
  lemma LoopEndsExactlyWhen(s: string, sep: string)
    ensures LoopEnds(s, sep) <==> sep != "" || s == ""
  {
    if sep != "" {
      CursorAdvances(s, sep, |s|);
    } else if s == "" {
      assert Cursor(s, sep, 0) == |s|;
    } else {
      forall turns
        ensures Cursor(s, sep, turns) != |s|
      {
        CursorIsStuck(s, turns);
      }
    }
  }

  function ConvertAll<T>(pieces: seq<string>, convert: string -> Option<T>): seq<T> {
    if pieces == [] then []
    else (match convert(pieces[0]) case Some(x) => [x] case None => []) + ConvertAll(pieces[1..], convert)
  }

  lemma ConvertFirst<T>(piece: string, rest: seq<string>, convert: string -> Option<T>, out: seq<T>)
    ensures convert(piece).Some? ==>
      out + ConvertAll([piece] + rest, convert) == (out + [convert(piece).value]) + ConvertAll(rest, convert)
    ensures convert(piece).None? ==> ConvertAll([piece] + rest, convert) == ConvertAll(rest, convert)
  {
    assert ([piece] + rest)[1..] == rest;
  }

  /** The elements are those of the pieces that convert, piece by piece. */
  lemma {:induction false} ConvertingIsPiecewise<T>(a: seq<string>, b: seq<string>, convert: string -> Option<T>)
    ensures ConvertAll(a + b, convert) == ConvertAll(a, convert) + ConvertAll(b, convert)
    decreases |a|
  {
    if a == [] {
      assert a + b == b;
    } else {
      assert (a + b)[1..] == a[1..] + b;
      ConvertingIsPiecewise(a[1..], b, convert);
    }
  }

  lemma ConvertingOne<T>(piece: string, convert: string -> Option<T>)
    ensures ConvertAll([piece], convert) == if convert(piece).Some? then [convert(piece).value] else []
  {
    assert [piece][1..] == [];
  }

  /**
   collectionFor: every piece that converts is appended to the container, in order; the answer is whether any did. It
   needs what its loop needs in order to end.
   */
  method CollectionFor<T>(value: Option<string>, sep: string, convert: string -> Option<T>, container: seq<T>)
    returns (res: bool, out: seq<T>)
    requires value.Some? && value.value != "" ==> sep != ""
    ensures value.None? ==> !res && out == container
    ensures value.Some? ==>
      && out == container + ConvertAll(Split(value.value, sep, 0), convert)
      && (res <==> ConvertAll(Split(value.value, sep, 0), convert) != [])
  {
    res, out := false, container;
    if value.None? {
      return;
    }
    var s := value.value;
    var start := 0;
    var end, after := Search(s, sep, 0);
    while start != |s|
      invariant start <= |s|
      invariant end == FindSeparator(s, sep, start) && (end < |s| ==> Occurs(s, sep, end)) &&
          after == Behind(s, sep, end)
      invariant out + ConvertAll(Split(s, sep, start), convert) == container + ConvertAll(Split(s, sep, 0), convert)
      invariant res <==> |out| > |container|
      invariant |out| >= |container|
      decreases |s| - start
    {
      ghost var rest, out0 := Split(s, sep, After(s, sep, start)), out;
      ConvertFirst(s[start..end], rest, convert, out);
      var element := convert(s[start..end]);
      if element.Some? {
        out := out + [element.value];
        res := true;
      }
      assert out + ConvertAll(rest, convert) == out0 + ConvertAll(Split(s, sep, start), convert);
      start := after;
      end, after := Search(s, sep, start);
    }
    assert out + [] == out;
  }

  // ---------- the pieces are the string, taken apart ----------

  function Join(pieces: seq<string>, sep: string): string {
    if pieces == [] then ""
    else if |pieces| == 1 then pieces[0]
    else pieces[0] + (sep + Join(pieces[1..], sep))
  }

  ghost predicate Free(piece: string, sep: string) {
    forall i :: 0 <= i <= |piece| ==> !Occurs(piece, sep, i)
  }

  /** Followed by a separator, the piece holds none before it, not even one that overlaps it. */
  ghost predicate Clear(piece: string, sep: string) {
    forall i :: 0 <= i < |piece| ==> !Occurs(piece + sep, sep, i)
  }

  /**
   The pieces of a split: each but the last clear of the separator it was cut at, the last free of it and not empty.
   */
  ghost predicate WellCut(pieces: seq<string>, sep: string) {
    && (forall k :: 0 <= k < |pieces| - 1 ==> Clear(pieces[k], sep))
    && (pieces != [] ==>
          var last := pieces[|pieces| - 1];
          Clear(last, sep) || (Free(last, sep) && last != ""))
  }

  /** A text that stands where no separator begins holds none. */
  lemma NoneWithin(s: string, sep: string, p: nat, x: string, last: nat)
    requires At(s, p, x) && last <= |x|
    requires forall i :: p <= i < p + last ==> !Occurs(s, sep, i)
    ensures forall i :: 0 <= i < last ==> !Occurs(x, sep, i)
  {
    forall i | 0 <= i < last
      ensures !Occurs(x, sep, i)
    {
      assert !Occurs(s, sep, p + i);
      if i + |sep| <= |x| {
        AtWithin(s, p, x, i, sep);
      }
    }
  }

  lemma ClearIsFree(piece: string, sep: string)
    requires Clear(piece, sep) && sep != ""
    ensures Free(piece, sep)
  {
    assert At(piece + sep, 0, piece);
    NoneWithin(piece + sep, sep, 0, piece, |piece|);
  }

  lemma CutIsClear(s: string, sep: string, start: nat)
    requires start < |s| && sep != ""
    ensures var end := FindSeparator(s, sep, start);
      && (end < |s| ==> Clear(s[start..end], sep))
      && (end == |s| ==> Free(s[start..end], sep) && s[start..end] != "")
  {
    FindSeparatorFinds(s, sep, start);
    var end := FindSeparator(s, sep, start);
    var piece := s[start..end];
    SliceIsAt(s, start, end);
    if end < |s| {
      AtJoin(s, start, piece, sep);
      NoneWithin(s, sep, start, piece + sep, |piece|);
    } else {
      NoneWithin(s, sep, start, piece, |piece|);
    }
  }

  /** The last piece was cut at a separator that ends the string. */
  predicate EndsCut(s: string, sep: string, start: nat)
    requires start <= |s| && sep != ""
    decreases |s| - start
  {
    start < |s| && (
      if After(s, sep, start) == |s| then FindSeparator(s, sep, start) < |s| else EndsCut(s, sep, After(s, sep, start)))
  }

  lemma JoinUnfold(piece: string, rest: seq<string>, sep: string)
    requires rest != []
    ensures Join([piece] + rest, sep) == piece + (sep + Join(rest, sep))
  {
    assert ([piece] + rest)[1..] == rest;
  }

  lemma CutText(s: string, sep: string, start: nat)
    requires start < |s| && sep != ""
    ensures var end := FindSeparator(s, sep, start);
      && (end == |s| ==> s[start..] == s[start..end])
      && (end < |s| ==> s[start..] == s[start..end] + (sep + s[After(s, sep, start)..]))
  {
    FindSeparatorFinds(s, sep, start);
    var end := FindSeparator(s, sep, start);
    if end < |s| {
      AtSlice(s, end, sep);
    }
  }

  lemma Regroup(piece: string, sep: string, joined: string, ending: string)
    ensures piece + (sep + (joined + ending)) == (piece + (sep + joined)) + ending
  {
  }

  lemma {:induction false} JoiningTheSplit(s: string, sep: string, start: nat)
    requires start <= |s| && sep != ""
    ensures s[start..] == Join(Split(s, sep, start), sep) + (if EndsCut(s, sep, start) then sep else "")
    ensures start < |s| ==> Split(s, sep, start) != []
    decreases |s| - start
  {
    if start < |s| {
      var after := After(s, sep, start);
      var piece, rest := s[start..FindSeparator(s, sep, start)], Split(s, sep, after);
      CutText(s, sep, start);
      if after < |s| {
        JoiningTheSplit(s, sep, after);
        JoinUnfold(piece, rest, sep);
        Regroup(piece, sep, Join(rest, sep), if EndsCut(s, sep, after) then sep else "");
      } else {
        assert rest == [] && Split(s, sep, start) == [piece];
        assert sep + "" == sep && piece + "" == piece;
      }
    }
  }

  lemma {:induction false} SplitIsWellCut(s: string, sep: string, start: nat)
    requires start <= |s| && sep != ""
    ensures WellCut(Split(s, sep, start), sep)
    decreases |s| - start
  {
    if start < |s| {
      var after := After(s, sep, start);
      var piece, rest := s[start..FindSeparator(s, sep, start)], Split(s, sep, after);
      CutIsClear(s, sep, start);
      if after < |s| {
        SplitIsWellCut(s, sep, after);
        WellCutPrepend(piece, rest, sep);
      } else {
        assert rest == [] && Split(s, sep, start) == [piece];
      }
    }
  }

  lemma WellCutPrepend(piece: string, rest: seq<string>, sep: string)
    requires Clear(piece, sep) && WellCut(rest, sep) && rest != []
    ensures WellCut([piece] + rest, sep)
  {
    var all := [piece] + rest;
    assert forall k :: 1 <= k < |all| ==> all[k] == rest[k - 1];
  }

  /**
   collectionFor into strings, for every string and every non-empty separator: no piece holds the separator, and
   joining the pieces gives the string back, up to one separator at its very end.
   */
  lemma SplittingLosesNothing(s: string, sep: string)
    requires sep != ""
    ensures var pieces := Split(s, sep, 0);
      && s == Join(pieces, sep) + (if EndsCut(s, sep, 0) then sep else "")
      && (forall k :: 0 <= k < |pieces| ==> Free(pieces[k], sep))
  {
    JoiningTheSplit(s, sep, 0);
    SplitIsWellCut(s, sep, 0);
    assert s[0..] == s;
    var pieces := Split(s, sep, 0);
    forall k | 0 <= k < |pieces|
      ensures Free(pieces[k], sep)
    {
      if Clear(pieces[k], sep) {
        ClearIsFree(pieces[k], sep);
      }
    }
  }

  // ---------- splitting undoes joining ----------

  /** Where a text without an early separator stands, no separator begins early. */
  lemma NoneWhere(s: string, sep: string, p: nat, x: string, last: nat)
    requires At(s, p, x) && last <= |x| && (last + |sep| <= |x| + 1 || p + |x| == |s|)
    requires forall i :: 0 <= i < last ==> !Occurs(x, sep, i)
    ensures forall i :: p <= i < p + last ==> !Occurs(s, sep, i)
  {
    forall i | p <= i < p + last
      ensures !Occurs(s, sep, i)
    {
      var k := i - p;
      assert !Occurs(x, sep, k) && p + k == i;
      if k + |sep| <= |x| {
        AtWithin(s, p, x, k, sep);
      }
    }
  }

  lemma CutAtClear(s: string, sep: string, p: nat, piece: string)
    requires At(s, p, piece + sep) && Clear(piece, sep) && sep != ""
    ensures FindSeparator(s, sep, p) == p + |piece| && Occurs(s, sep, p + |piece|)
  {
    AtSplit(s, p, piece, sep);
    NoneWhere(s, sep, p, piece + sep, |piece|);
    FindSeparatorIs(s, sep, p, p + |piece|);
  }

  lemma CutAtEnd(s: string, sep: string, p: nat, piece: string)
    requires At(s, p, piece) && p + |piece| == |s| && Free(piece, sep) && sep != ""
    ensures FindSeparator(s, sep, p) == |s|
  {
    NoneWhere(s, sep, p, piece, |piece|);
    FindSeparatorIs(s, sep, p, |s|);
  }

  /** Every piece but the last clear of the separator, the last one free of it and not empty. */
  ghost predicate Joinable(pieces: seq<string>, sep: string) {
    && (forall k :: 0 <= k < |pieces| - 1 ==> Clear(pieces[k], sep))
    && (pieces != [] ==> Free(pieces[|pieces| - 1], sep) && pieces[|pieces| - 1] != "")
  }

  lemma AtThree(s: string, p: nat, first: string, sep: string, rest: string)
    requires At(s, p, first + (sep + rest))
    ensures At(s, p, first) && At(s, p, first + sep) && At(s, p + |first| + |sep|, rest)
  {
    AtSplit(s, p, first, sep + rest);
    AtSplit(s, p + |first|, sep, rest);
    AtJoin(s, p, first, sep);
  }

  /** The piece that stands first is cut off first. */
  lemma SplitFirst(s: string, sep: string, p: nat, piece: string, rest: string)
    requires sep != "" && Clear(piece, sep) && At(s, p, piece + (sep + rest))
    ensures Split(s, sep, p) == [piece] + Split(s, sep, p + |piece| + |sep|) && At(s, p + |piece| + |sep|, rest)
  {
    AtThree(s, p, piece, sep, rest);
    AtSlice(s, p, piece);
    CutAtClear(s, sep, p, piece);
  }

  lemma SplitLast(s: string, sep: string, p: nat, piece: string)
    requires sep != "" && Free(piece, sep) && piece != "" && At(s, p, piece) && p + |piece| == |s|
    ensures Split(s, sep, p) == [piece]
  {
    AtSlice(s, p, piece);
    CutAtEnd(s, sep, p, piece);
    assert Split(s, sep, p) == [piece] + Split(s, sep, |s|);
  }

  lemma {:induction false} SplitAtJoin(s: string, sep: string, p: nat, pieces: seq<string>)
    requires sep != "" && Joinable(pieces, sep) && At(s, p, Join(pieces, sep)) && p + |Join(pieces, sep)| == |s|
    ensures Split(s, sep, p) == pieces
    decreases |pieces|
  {
    if |pieces| == 1 {
      SplitLast(s, sep, p, pieces[0]);
    } else if pieces != [] {
      var piece, rest := pieces[0], pieces[1..];
      assert pieces == [piece] + rest;
      JoinUnfold(piece, rest, sep);
      JoinableTail(pieces, sep);
      SplitFirst(s, sep, p, piece, Join(rest, sep));
      SplitAtJoin(s, sep, p + |piece| + |sep|, rest);
    }
  }

  lemma JoinableTail(pieces: seq<string>, sep: string)
    requires |pieces| > 1 && Joinable(pieces, sep)
    ensures Joinable(pieces[1..], sep) && Clear(pieces[0], sep)
  {
    assert forall k :: 0 <= k < |pieces| - 1 ==> pieces[1..][k] == pieces[k + 1];
  }

  lemma {:induction false} UncutEnd(s: string, sep: string, start: nat)
    requires start < |s| && sep != "" && !EndsCut(s, sep, start)
    ensures var pieces := Split(s, sep, start);
      pieces != [] && Free(pieces[|pieces| - 1], sep) && pieces[|pieces| - 1] != ""
    decreases |s| - start
  {
    var after := After(s, sep, start);
    if after < |s| {
      UncutEnd(s, sep, after);
    } else {
      CutIsClear(s, sep, start);
      assert Split(s, sep, start) == [s[start..FindSeparator(s, sep, start)]];
    }
  }

  /** Splitting what was joined gives the pieces back exactly when each was free to be joined. */
  lemma SplittingUndoesJoining(pieces: seq<string>, sep: string)
    requires sep != ""
    ensures Split(Join(pieces, sep), sep, 0) == pieces <==> Joinable(pieces, sep)
  {
    var s := Join(pieces, sep);
    if Joinable(pieces, sep) {
      SplitAtJoin(s, sep, 0, pieces);
    }
    if Split(s, sep, 0) == pieces && pieces != [] {
      JoiningTheSplit(s, sep, 0);
      SplitIsWellCut(s, sep, 0);
      assert s[0..] == s;
      UncutEnd(s, sep, 0);
    }
  }
}
