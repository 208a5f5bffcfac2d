/** Taking paths apart and putting them together (UtilitiesInfra/LinuxUtils/LinuxIOUtilities.cpp). */
module Paths {
  import opened Options
  import opened Texts

  const SLASH: char := '/'

  /** The parts before and behind the last separator; without one, all of it is the file name. */
  function Directory(path: string): string {
    var n := LastOf(path, SLASH);
    if n == 0 then "" else path[..n - 1]
  }

  function FileName(path: string): string {
    path[LastOf(path, SLASH)..]
  }

  /** string::find_first_of for one character. */
  method FindFirst(s: string, c: char, from: nat) returns (pos: Option<nat>)
    requires from <= |s|
    ensures pos.Some? ==> from <= pos.value < |s| && s[pos.value] == c && c !in s[from..pos.value]
    ensures pos.None? ==> c !in s[from..]
  {
    var i := from;
    while i < |s| && s[i] != c
      invariant from <= i <= |s| && c !in s[from..i]
    {
      assert s[from..i + 1] == s[from..i] + [s[i]];
      i := i + 1;
    }
    assert s[from..|s|] == s[from..];
    pos := if i < |s| then Some(i) else None;
  }

  /** getDirectoryAndFileName: collecting the segments amounts to one split at the last separator. */
  method GetDirectoryAndFileName(fullPath: string) returns (directory: string, fileName: string)
    ensures directory == Directory(fullPath) && fileName == FileName(fullPath)
  {
    directory := "";
    var prev: nat, offset: nat := 0, 0;
    var next := FindFirst(fullPath, SLASH, 0);
    while next.Some?
      invariant prev <= |fullPath| && directory == fullPath[..prev]
      invariant offset == 0 ==> prev == 0
      invariant offset == 1 ==> prev < |fullPath| && fullPath[prev] == SLASH
      invariant offset == 0 || offset == 1
      invariant next.Some? ==> prev + offset <= next.value < |fullPath| && fullPath[next.value] == SLASH
      invariant SLASH !in fullPath[prev + offset..if next.Some? then next.value else |fullPath|]
      decreases |fullPath| - prev - offset
    {
      offset := 1;
      if prev != next.value {
        assert fullPath[..prev] + fullPath[prev..next.value] == fullPath[..next.value];
        directory := directory + fullPath[prev..next.value];
        prev := next.value;
      }
      next := FindFirst(fullPath, SLASH, next.value + 1);
    }
    LastOfIs(fullPath, SLASH, prev + offset);
    fileName := fullPath[prev + offset..];
  }

  /** Without a separator the whole path is the file name; otherwise the last separator parts it. */
  lemma PartsOfAPath(path: string, directory: string, fileName: string)
    requires '/' !in fileName
    ensures '/' !in path ==> Directory(path) == "" && FileName(path) == path
    ensures path == directory + "/" + fileName ==> Directory(path) == directory && FileName(path) == fileName
  {
    if '/' !in path {
      assert path[0..] == path;
      LastOfIs(path, SLASH, 0);
    }
    LastOfJoin(directory, SLASH, fileName);
    var joined := directory + "/" + fileName;
    assert joined[..|directory|] == directory && joined[|directory| + 1..] == fileName;
  }

  /** fullPath: without a directory or without a file name, the directory alone. */
  function FullPath(fileName: string, directory: string): string {
    if directory != "" && fileName != "" then directory + [SLASH] + fileName else directory
  }

  method JoinPath(fileName: string, directory: string) returns (path: string)
    ensures path == FullPath(fileName, directory)
  {
    path := directory;
    if directory != "" && fileName != "" {
      path := path + [SLASH];
      path := path + fileName;
    }
  }

  /**
   Putting the parts of a path together again gives it back exactly when both parts are there, or the path is empty.
   */
  lemma JoiningUndoesSplitting(path: string)
    ensures FullPath(FileName(path), Directory(path)) == path <==>
      path == "" || 1 < LastOf(path, SLASH) < |path|
  {
    var n := LastOf(path, SLASH);
    var directory, fileName := Directory(path), FileName(path);
    assert |directory| == (if n == 0 then 0 else n - 1) && |fileName| == |path| - n;
    if n <= 1 {
      assert FullPath(fileName, directory) == "";
    } else if n == |path| {
      assert FullPath(fileName, directory) == directory;
    } else {
      Rejoined(path, n);
    }
  }

  lemma Rejoined(path: string, n: nat)
    requires 1 < n < |path| && path[n - 1] == SLASH
    ensures path[..n - 1] + [SLASH] + path[n..] == path
  {
  }

  /**
   Taking the joined path apart gives both parts back exactly when both are empty, or both are not and the file name
   holds no separator.
   */
  lemma SplittingUndoesJoining(fileName: string, directory: string)
    ensures var path := FullPath(fileName, directory);
      Directory(path) == directory && FileName(path) == fileName <==>
        || (directory == "" && fileName == "")
        || (directory != "" && fileName != "" && SLASH !in fileName)
    ensures directory == "" || fileName == "" ==> FullPath(fileName, directory) == directory
  {
    var path := FullPath(fileName, directory);
    if directory != "" && fileName != "" {
      if SLASH !in fileName {
        LastOfJoin(directory, SLASH, fileName);
      } else {
        assert SLASH !in FileName(path);
      }
    }
  }
}
