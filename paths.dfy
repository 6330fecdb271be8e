/** Finding the executable (src/paths.rs): an absolute path is taken as it is (resolved
    in the rootfs when one is given); a relative one is looked up in the folders of
    `PATH`, first match wins. */
module Paths {
  import opened Wrappers
  import Text
  import opened PathBufs
  import opened Host
  import opened Rootfs

  /** A path, resolved in the rootfs when there is one. */
  function InRoot(p: Path, rootfs: Option<Path>, fs: Fs): Result<Path>
  {
    match rootfs
    case None => Ok(p)
    case Some(r) => ResolveLoop(p, [], 0, r, fs).0
  }

  /** The candidate for one `PATH` folder: `folder/path`, resolved in the rootfs when
      there is one. */
  function Candidate(folder: string, rel: Path, rootfs: Option<Path>, fs: Fs): Result<Path>
  {
    InRoot(Join(Parse(folder), rel), rootfs, fs)
  }

  /** The candidates of all folders, in `PATH` order. */
  function Candidates(folders: seq<string>, rel: Path, rootfs: Option<Path>, fs: Fs): (r: seq<Result<Path>>)
    ensures |r| == |folders|
    ensures forall i :: 0 <= i < |folders| ==> r[i] == Candidate(folders[i], rel, rootfs, fs)
  {
    seq(|folders|, i requires 0 <= i < |folders| => Candidate(folders[i], rel, rootfs, fs))
  }

  /** The first candidate that exists, trying them in order; a candidate that cannot
      be resolved aborts the search. */
  function FirstOf(cands: seq<Result<Path>>, fs: Fs): Result<Option<Path>>
  {
    if cands == [] then Ok(None)
    else
      var c :- cands[0];
      if Exists(fs, c) then Ok(Some(c)) else FirstOf(cands[1..], fs)
  }

  function FirstFound(folders: seq<string>, rel: Path, rootfs: Option<Path>, fs: Fs): Result<Option<Path>>
  {
    FirstOf(Candidates(folders, rel, rootfs, fs), fs)
  }

  /** What `find_in_path` returns; `pathVar` is the `PATH` variable. */
  function Find(pathRelative: Path, rootfs: Option<Path>, pathVar: Option<string>, fs: Fs): Result<Option<Path>>
  {
    if IsAbsolute(pathRelative) then
      var p :- InRoot(pathRelative, rootfs, fs);
      Ok(if Exists(fs, p) then Some(p) else None)
    else if pathVar.None? then Err(PathVariableUnset)
    else FirstFound(Text.Split(pathVar.value, ':'), pathRelative, rootfs, fs)
  }

  /** `find_in_path`. */
  method FindInPath(pathRelative: Path, rootfs: Option<Path>, pathVar: Option<string>, fs: Fs)
    returns (r: Result<Option<Path>>)
    ensures r == Find(pathRelative, rootfs, pathVar, fs)
  {
    if IsAbsolute(pathRelative) {
      var p :- TryPath(pathRelative, rootfs, fs);
      if Exists(fs, p) {
        return Ok(Some(p));
      }
      return Ok(None);
    }
    if pathVar.None? {
      return Err(PathVariableUnset);
    }
    r := SearchFolders(Text.Split(pathVar.value, ':'), pathRelative, rootfs, fs);
  }

  /** A path, resolved in the rootfs when there is one. */
  method TryPath(p: Path, rootfs: Option<Path>, fs: Fs) returns (r: Result<Path>)
    ensures r == InRoot(p, rootfs, fs)
  {
    r := Ok(p);
    if rootfs.Some? {
      r := ResolveInRootfs(p, rootfs.value, fs);
    }
  }

  /** The loop over the `PATH` folders, returning the first candidate that exists. */
  method SearchFolders(folders: seq<string>, rel: Path, rootfs: Option<Path>, fs: Fs)
    returns (r: Result<Option<Path>>)
    ensures r == FirstFound(folders, rel, rootfs, fs)
  {
    ghost var cands := Candidates(folders, rel, rootfs, fs);
    var i := 0;
    while i < |folders|
      invariant 0 <= i <= |folders|
      invariant FirstOf(cands[i..], fs) == FirstOf(cands, fs)
    {
      FirstOfStep(cands, i, fs);
      var tryAbsPath := TryPath(Join(Parse(folders[i]), rel), rootfs, fs);
      assert tryAbsPath == cands[i];
      if tryAbsPath.Err? {
        return Err(tryAbsPath.error);
      }
      if Exists(fs, tryAbsPath.value) {
        return Ok(Some(tryAbsPath.value));
      }
      i := i + 1;
    }
    return Ok(None);
  }

  lemma FirstOfStep(cands: seq<Result<Path>>, i: nat, fs: Fs)
    requires i < |cands|
    ensures FirstOf(cands[i..], fs) == if cands[i].Err? then Err(cands[i].error)
                                      else if Exists(fs, cands[i].value) then Ok(Some(cands[i].value))
                                      else FirstOf(cands[i + 1..], fs)
  {
    assert cands[i..][1..] == cands[i + 1..];
  }

  /** Candidate `j` was resolved and does not exist. */
  predicate Misses(cands: seq<Result<Path>>, j: nat, fs: Fs)
    requires j < |cands|
  {
    cands[j].Ok? && !Exists(fs, cands[j].value)
  }

  /** Nothing is found iff every candidate was resolved and does not exist. */
  lemma {:induction false} NotFoundIff(cands: seq<Result<Path>>, fs: Fs)
    ensures FirstOf(cands, fs) == Ok(None) <==> forall j :: 0 <= j < |cands| ==> Misses(cands, j, fs)
  {
    if cands != [] {
      var rest := cands[1..];
      NotFoundIff(rest, fs);
      if FirstOf(cands, fs) == Ok(None) {
        forall j | 0 <= j < |cands| ensures Misses(cands, j, fs)
        {
          if j > 0 { assert cands[j] == rest[j - 1] && Misses(rest, j - 1, fs); }
        }
      }
      if forall j :: 0 <= j < |cands| ==> Misses(cands, j, fs) {
        forall j | 0 <= j < |rest| ensures Misses(rest, j, fs)
        {
          assert rest[j] == cands[j + 1] && Misses(cands, j + 1, fs);
        }
        assert Misses(cands, 0, fs);
      }
    }
  }

  /** A found path is a candidate that exists, and every candidate before it was
      resolved and missed. */
  lemma {:induction false} FoundIsFirst(cands: seq<Result<Path>>, fs: Fs)
    requires FirstOf(cands, fs).Ok? && FirstOf(cands, fs).value.Some?
    ensures exists i :: 0 <= i < |cands| && cands[i] == Ok(FirstOf(cands, fs).value.value)
              && Exists(fs, FirstOf(cands, fs).value.value)
              && forall j :: 0 <= j < i ==> Misses(cands, j, fs)
  {
    var found := FirstOf(cands, fs).value.value;
    if !Exists(fs, cands[0].value) {
      var rest := cands[1..];
      FoundIsFirst(rest, fs);
      var i :| 0 <= i < |rest| && rest[i] == Ok(found) && Exists(fs, found)
               && forall j :: 0 <= j < i ==> Misses(rest, j, fs);
      assert rest[i] == cands[i + 1];
      forall j | 0 <= j < i + 1 ensures Misses(cands, j, fs)
      {
        if j > 0 { assert rest[j - 1] == cands[j] && Misses(rest, j - 1, fs); }
      }
    } else {
      assert cands[0] == Ok(found);
    }
  }

  /** Candidate `i` is the first one that could not be resolved. */
  predicate FirstUnresolved(cands: seq<Result<Path>>, i: int, fs: Fs)
  {
    0 <= i < |cands| && cands[i].Err? && forall j :: 0 <= j < i ==> Misses(cands, j, fs)
  }

  /** An abort of the search is the resolution failure of the first candidate that
      could not be resolved, all before it having missed. */
  lemma {:induction false} SearchAborts(cands: seq<Result<Path>>, fs: Fs)
    requires FirstOf(cands, fs).Err?
    ensures exists i :: FirstUnresolved(cands, i, fs) && FirstOf(cands, fs).error == cands[i].error
  {
    if cands[0].Err? {
      assert FirstUnresolved(cands, 0, fs);
    } else {
      var rest := cands[1..];
      SearchAborts(rest, fs);
      var i :| FirstUnresolved(rest, i, fs) && FirstOf(rest, fs).error == rest[i].error;
      assert rest[i] == cands[i + 1];
      forall j | 0 <= j < i + 1 ensures Misses(cands, j, fs)
      {
        if j > 0 { assert rest[j - 1] == cands[j] && Misses(rest, j - 1, fs); }
      }
      assert FirstUnresolved(cands, i + 1, fs);
    }
  }

  /** A candidate that cannot be resolved, reached with all before it missing, aborts
      the search. */
  lemma {:induction false} UnresolvedAborts(cands: seq<Result<Path>>, i: int, fs: Fs)
    requires FirstUnresolved(cands, i, fs)
    ensures FirstOf(cands, fs) == Err(cands[i].error)
  {
    if i > 0 {
      var rest := cands[1..];
      assert Misses(cands, 0, fs);
      forall j | 0 <= j < i - 1 ensures Misses(rest, j, fs)
      {
        assert rest[j] == cands[j + 1] && Misses(cands, j + 1, fs);
      }
      assert rest[i - 1] == cands[i];
      UnresolvedAborts(rest, i - 1, fs);
    }
  }

  /** An absolute path is found iff it (resolved in the rootfs when one is given)
      exists. */
  lemma AbsoluteFound(pathRelative: Path, rootfs: Option<Path>, pathVar: Option<string>, fs: Fs)
    requires IsAbsolute(pathRelative) && InRoot(pathRelative, rootfs, fs).Ok?
    ensures var p := InRoot(pathRelative, rootfs, fs).value;
            Find(pathRelative, rootfs, pathVar, fs) == (if Exists(fs, p) then Ok(Some(p)) else Ok(None))
    ensures rootfs.None? ==> InRoot(pathRelative, rootfs, fs).value == pathRelative
  {
  }

  /** A relative path without `PATH` aborts; with `PATH` it is searched folder by folder. */
  lemma RelativeSearch(pathRelative: Path, rootfs: Option<Path>, pathVar: Option<string>, fs: Fs)
    requires !IsAbsolute(pathRelative)
    ensures pathVar.None? ==> Find(pathRelative, rootfs, pathVar, fs) == Err(PathVariableUnset)
    ensures pathVar.Some? ==> Find(pathRelative, rootfs, pathVar, fs) == FirstFound(Text.Split(pathVar.value, ':'), pathRelative, rootfs, fs)
  {
  }

  /** Whatever is found exists. */
  lemma FoundExists(pathRelative: Path, rootfs: Option<Path>, pathVar: Option<string>, fs: Fs)
    requires Find(pathRelative, rootfs, pathVar, fs).Ok? && Find(pathRelative, rootfs, pathVar, fs).value.Some?
    ensures Exists(fs, Find(pathRelative, rootfs, pathVar, fs).value.value)
  {
    if !IsAbsolute(pathRelative) {
      FoundIsFirst(Candidates(Text.Split(pathVar.value, ':'), pathRelative, rootfs, fs), fs);
    }
  }

  /** With a clean rootfs, whatever is found lies inside the rootfs. */
  lemma FoundInsideRootfs(folders: seq<string>, rel: Path, rootfs: Path, fs: Fs)
    requires CleanRootfs(rootfs)
    requires FirstFound(folders, rel, Some(rootfs), fs).Ok? && FirstFound(folders, rel, Some(rootfs), fs).value.Some?
    ensures StartsWith(FirstFound(folders, rel, Some(rootfs), fs).value.value, rootfs)
  {
    var cands := Candidates(folders, rel, Some(rootfs), fs);
    FoundIsFirst(cands, fs);
    var found := FirstOf(cands, fs).value.value;
    var i :| 0 <= i < |cands| && cands[i] == Ok(found);
    ResolveConfined(Join(Parse(folders[i]), rel), [], 0, rootfs, fs);
  }
}
