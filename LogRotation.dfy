/** Log rotation at orchestrator start-up: which existing `.log` entries of
    the log directory are deleted so that, with the log about to be
    written, at most `keepCount` remain. The directory listing is taken as
    given, in the order the file system returns it; it is not sorted. */
module LogRotation {
  import opened Wrappers
  import opened Sequences
  import opened Text

  predicate IsLogFile(name: string) {
    EndsWith(name, ".log")
  }

  /** `[f for f in listing if f.endswith('.log')]`. */
  function LogFiles(entries: seq<string>): (r: seq<string>)
    ensures forall f :: f in r <==> f in entries && EndsWith(f, ".log")
  {
    Filter(entries, IsLogFile)
  }

  /** `[os.path.join(dir, f) for f in names]`. */
  function JoinAll(dir: string, names: seq<string>): (r: seq<string>)
    ensures |r| == |names|
  {
    if names == [] then [] else JoinAll(dir, names[..|names| - 1]) + [Join(dir, names[|names| - 1])]
  }

  lemma {:induction false} JoinAllAt(dir: string, names: seq<string>, i: nat)
    requires i < |names|
    ensures JoinAll(dir, names)[i] == Join(dir, names[i])
  {
    if i < |names| - 1 {
      JoinAllAt(dir, names[..|names| - 1], i);
    }
  }

  /** Python's `s[start:]`: a negative start counts from the end, and both
      kinds are clamped to the sequence. */
  function SliceFrom<T>(s: seq<T>, start: int): (r: seq<T>)
    ensures start < 0 && -start <= |s| ==> r == s[|s| + start..]
    ensures start >= 0 && start <= |s| ==> r == s[start..]
    ensures start < 0 && -start > |s| ==> r == s
    ensures start > |s| ==> r == []
  {
    if start < 0 then (if |s| + start < 0 then s else s[|s| + start..])
    else if start > |s| then []
    else s[start..]
  }

  /** The paths `_rotate_logs(keepCount)` deletes, for a log directory whose
      listing is `listing` (None when it is not a directory). The count is
      first lowered by one to leave room for the new log; the last that many
      `.log` paths of the listing are kept and every other listed `.log`
      path is removed. Nothing sorts the listing, so these are the newest
      logs only when the file system lists them in creation order. */
  function LogsToRemove(dir: string, listing: Option<seq<string>>, keepCount: int): (r: seq<string>)
    ensures listing.None? ==> r == []
    ensures listing.Some? && |LogFiles(listing.value)| <= keepCount - 1 ==> r == []
  {
    match listing
    case None => []
    case Some(entries) =>
      var keep := keepCount - 1;
      var logs := LogFiles(entries);
      if !(|logs| > keep) then []
      else
        var paths := JoinAll(dir, logs);
        FilterNotIn(paths, SliceFrom(paths, -keep))
  }

  /** Only listed `.log` entries are ever deleted: every removed path is the
      directory joined with a listed name ending in `.log`. */
  lemma RemovesOnlyLogFiles(dir: string, listing: Option<seq<string>>, keepCount: int, f: string)
    requires f in LogsToRemove(dir, listing, keepCount)
    ensures listing.Some?
    ensures exists name :: name in listing.value && IsLogFile(name) && f == Join(dir, name)
    ensures EndsWith(f, ".log")
  {
    var logs := LogFiles(listing.value);
    var paths := JoinAll(dir, logs);
    LogsToRemoveOf(dir, listing.value, keepCount, paths);
    FilterNotInMembers(paths, SliceFrom(paths, -(keepCount - 1)), f);
    var i :| 0 <= i < |paths| && paths[i] == f;
    var name := logs[i];
    JoinAllAt(dir, logs, i);
    assert name in listing.value && IsLogFile(name);
    JoinKeepsSuffix(dir, name, ".log");
  }

  /** `_rotate_logs`: selects the paths and attempts to delete each. */
  method RotateLogs(dir: string, listing: Option<seq<string>>, keepCount: int, removable: string -> bool)
    returns (attempted: seq<string>, refused: seq<string>)
    ensures attempted == LogsToRemove(dir, listing, keepCount)
    ensures refused == Rejected(attempted, removable)
  {
    attempted, refused := RemoveAll(LogsToRemove(dir, listing, keepCount), removable);
  }

  /** The deletion loop: every selected path is attempted; a refused
      deletion is reported and the loop goes on. `removable` stands for the
      file system's permission check. */
  method RemoveAll(toRemove: seq<string>, removable: string -> bool)
    returns (attempted: seq<string>, refused: seq<string>)
    ensures attempted == toRemove
    ensures refused == Rejected(toRemove, removable)
  {
    attempted, refused := [], [];
    for i := 0 to |toRemove|
      invariant attempted == toRemove[..i]
      invariant refused == Rejected(attempted, removable)
    {
      var f := toRemove[i];
      FilterAppend(attempted, f, removable);
      if !removable(f) {
        refused := refused + [f];
      }
      attempted := attempted + [f];
      assert attempted == toRemove[..i + 1];
    }
    assert toRemove[..|toRemove|] == toRemove;
  }

  /** Paths joined from distinct relative names are distinct. */
  lemma {:induction false} JoinAllNoDups(dir: string, names: seq<string>)
    requires NoDups(names)
    requires forall n :: n in names ==> !StartsWith(n, "/")
    ensures NoDups(JoinAll(dir, names))
  {
    var paths := JoinAll(dir, names);
    forall i, j | 0 <= i < j < |paths| ensures paths[i] != paths[j] {
      if paths[i] == paths[j] {
        JoinAllAt(dir, names, i);
        JoinAllAt(dir, names, j);
        assert names[i] in names && names[j] in names;
        JoinInjective(dir, names[i], names[j]);
      }
    }
  }

  /** The selection on a listing, spelled out. */
  lemma LogsToRemoveOf(dir: string, entries: seq<string>, keepCount: int, paths: seq<string>)
    requires paths == JoinAll(dir, LogFiles(entries))
    ensures LogsToRemove(dir, Some(entries), keepCount)
            == if |paths| > keepCount - 1 then FilterNotIn(paths, SliceFrom(paths, -(keepCount - 1))) else []
  {
  }

  /** The `.log` paths of a listing of distinct relative names are distinct. */
  lemma LogPathsDistinct(dir: string, entries: seq<string>)
    requires NoDups(entries)
    requires forall e :: e in entries ==> !StartsWith(e, "/")
    ensures NoDups(JoinAll(dir, LogFiles(entries)))
  {
    FilterNoDups(entries, IsLogFile);
    JoinAllNoDups(dir, LogFiles(entries));
  }

  /** On distinct paths, keeping the last `keep` by membership removes
      exactly the others. */
  lemma SelectionOnDistinct(paths: seq<string>, keep: int)
    requires NoDups(paths)
    requires 1 <= keep < |paths|
    ensures FilterNotIn(paths, SliceFrom(paths, -keep)) == paths[..|paths| - keep]
  {
    assert SliceFrom(paths, -keep) == paths[|paths| - keep..];
    FilterNotInSuffix(paths, keep);
  }

  /** With at least one old log to keep and a listing of distinct names
      (as a directory listing is), the first-listed entries go
      and exactly `keepCount - 1` `.log` paths remain. */
  lemma RotationRemovesFirstListed(dir: string, entries: seq<string>, keepCount: int)
    requires keepCount >= 2
    requires NoDups(entries)
    requires forall e :: e in entries ==> !StartsWith(e, "/")
    requires |LogFiles(entries)| > keepCount - 1
    ensures var paths := JoinAll(dir, LogFiles(entries));
            LogsToRemove(dir, Some(entries), keepCount) == paths[..|paths| - (keepCount - 1)]
    ensures |LogsToRemove(dir, Some(entries), keepCount)| == |LogFiles(entries)| - (keepCount - 1)
  {
    var paths := JoinAll(dir, LogFiles(entries));
    LogPathsDistinct(dir, entries);
    LogsToRemoveOf(dir, entries, keepCount, paths);
    SelectionOnDistinct(paths, keepCount - 1);
  }

  /** `keepCount = 1` keeps nothing old in intent, but `paths[-0:]` is the
      whole list, so nothing is deleted. */
  lemma KeepOneRemovesNothing(dir: string, listing: Option<seq<string>>)
    ensures LogsToRemove(dir, listing, 1) == []
  {
    if listing.Some? {
      var paths := JoinAll(dir, LogFiles(listing.value));
      LogsToRemoveOf(dir, listing.value, 1, paths);
      FilterNotInSelf(paths, SliceFrom(paths, 0));
    }
  }

  /** The start-up call keeps 5: six distinct old logs lose the two listed
      first, leaving four plus the one about to be written. */
  lemma StartupRotationOfSix(dir: string, entries: seq<string>)
    requires NoDups(entries)
    requires forall e :: e in entries ==> !StartsWith(e, "/")
    requires |LogFiles(entries)| == 6
    ensures var paths := JoinAll(dir, LogFiles(entries));
            LogsToRemove(dir, Some(entries), 5) == paths[..2]
  {
    RotationRemovesFirstListed(dir, entries, 5);
  }
}
