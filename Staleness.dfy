/** Incremental-build analysis (`_find_modified_scripts`): for each source
    script, find its compiled `.pex` file and keep that file when the source
    was last modified strictly before the compile time recorded in the
    file's header. Despite the source's name, the result is the set of
    compiled files that are up to date. */
module Staleness {
  import opened Wrappers
  import opened Sequences
  import opened Text

  /** The file system as the analysis sees it: existence of a file, a
      source's modification time (`os.path.getmtime`, seconds as a float)
      and the compile time in a `.pex` header (`PexReader.get_header`;
      None when the header's magic number is not recognised). */
  datatype FileSystem = FileSystem(
    isFile: string -> bool,
    modifiedTime: string -> real,
    compileTime: string -> Option<int>)

  /** The first path that ends with `suffix`: `[p for p in paths if
      p.endswith(suffix)][0]` when that list is not empty. */
  function FirstEndingWith(paths: seq<string>, suffix: string): (r: Option<string>)
    ensures r.None? <==> forall j :: 0 <= j < |paths| ==> !EndsWith(paths[j], suffix)
    ensures r.Some? ==> exists i :: 0 <= i < |paths| && paths[i] == r.value && IsFirstEndingWith(paths, suffix, i)
  {
    if paths == [] then None
    else if EndsWith(paths[0], suffix) then
      assert IsFirstEndingWith(paths, suffix, 0);
      Some(paths[0])
    else
      var r := FirstEndingWith(paths[1..], suffix);
      if r.Some? then
        var i :| 0 <= i < |paths[1..]| && paths[1..][i] == r.value && IsFirstEndingWith(paths[1..], suffix, i);
        assert IsFirstEndingWith(paths, suffix, i + 1);
        r
      else
        assert forall j :: 1 <= j < |paths| ==> paths[j] == paths[1..][j - 1];
        r
  }

  /** Index `i` holds the first path ending with `suffix`. */
  predicate IsFirstEndingWith(paths: seq<string>, suffix: string, i: int) {
    && 0 <= i < |paths|
    && EndsWith(paths[i], suffix)
    && forall j :: 0 <= j < i ==> !EndsWith(paths[j], suffix)
  }

  /** What one source script adds to the result, if anything. */
  function Contribution(psc: string, pexPaths: seq<string>, fs: FileSystem): (r: Option<string>)
    ensures r.Some? ==> r.value in pexPaths
  {
    match FirstEndingWith(pexPaths, ScriptName(psc) + ".pex")
    case None => None
    case Some(pex) =>
      if !fs.isFile(pex) then None
      else match fs.compileTime(pex)
        case None => None
        case Some(t) => if fs.modifiedTime(psc) < t as real then Some(pex) else None
  }

  /** The property that decides membership, stated from scratch: `pex` is the
      first listed compiled file ending with `<script name>.pex`, it exists,
      its header reads, and the source is strictly older than the compile
      time in it. */
  ghost predicate UpToDate(psc: string, pex: string, pexPaths: seq<string>, fs: FileSystem) {
    && (exists i :: IsFirstEndingWith(pexPaths, ScriptName(psc) + ".pex", i) && pexPaths[i] == pex)
    && fs.isFile(pex)
    && fs.compileTime(pex).Some?
    && fs.modifiedTime(psc) < fs.compileTime(pex).value as real
  }

  /** `Contribution` is exactly `UpToDate`. */
  lemma ContributionIsUpToDate(psc: string, pex: string, pexPaths: seq<string>, fs: FileSystem)
    ensures Contribution(psc, pexPaths, fs) == Some(pex) <==> UpToDate(psc, pex, pexPaths, fs)
  {
    var suffix := ScriptName(psc) + ".pex";
    var m := FirstEndingWith(pexPaths, suffix);
    if UpToDate(psc, pex, pexPaths, fs) {
      var i :| IsFirstEndingWith(pexPaths, suffix, i) && pexPaths[i] == pex;
      var k :| 0 <= k < |pexPaths| && pexPaths[k] == m.value && IsFirstEndingWith(pexPaths, suffix, k);
      assert k == i;
    }
  }

  /** The values `contribute` yields over `items`, in order, skipping None:
      the list a loop builds by appending each contribution. */
  function Collect(items: seq<string>, contribute: string -> Option<string>): (r: seq<string>)
    ensures |r| <= |items|
  {
    if items == [] then []
    else
      var before := Collect(items[..|items| - 1], contribute);
      match contribute(items[|items| - 1])
      case None => before
      case Some(x) => before + [x]
  }

  /** A value is collected exactly when some item yields it. */
  lemma {:induction false} CollectMembers(items: seq<string>, contribute: string -> Option<string>, x: string)
    ensures x in Collect(items, contribute) <==> exists item :: item in items && contribute(item) == Some(x)
  {
    if items != [] {
      var init := items[..|items| - 1];
      var last := items[|items| - 1];
      CollectMembers(init, contribute, x);
      assert items == init + [last];
      if exists item :: item in items && contribute(item) == Some(x) {
        var item :| item in items && contribute(item) == Some(x);
        if item != last {
          assert item in init;
        }
      }
    }
  }

  /** The paths appended by the loop, in order, before de-duplication. */
  function Candidates(pscPaths: seq<string>, pexPaths: seq<string>, fs: FileSystem): (r: seq<string>)
    ensures |r| <= |pscPaths|
  {
    Collect(pscPaths, psc => Contribution(psc, pexPaths, fs))
  }

  /** One more source script: the step the analysis loop takes. */
  lemma CandidatesAppend(pscPaths: seq<string>, psc: string, pexPaths: seq<string>, fs: FileSystem)
    ensures Candidates(pscPaths + [psc], pexPaths, fs)
            == Candidates(pscPaths, pexPaths, fs)
               + match Contribution(psc, pexPaths, fs) case None => [] case Some(pex) => [pex]
  {
    assert (pscPaths + [psc])[..|pscPaths|] == pscPaths;
  }

  /** A path is a candidate exactly when some source script contributes it. */
  lemma CandidatesMembers(pscPaths: seq<string>, pexPaths: seq<string>, fs: FileSystem, pex: string)
    ensures pex in Candidates(pscPaths, pexPaths, fs)
            <==> exists psc :: psc in pscPaths && Contribution(psc, pexPaths, fs) == Some(pex)
  {
    CollectMembers(pscPaths, psc => Contribution(psc, pexPaths, fs), pex);
  }

  /** The analysis result: the candidates, first occurrences only. */
  function ModifiedScripts(pscPaths: seq<string>, pexPaths: seq<string>, fs: FileSystem): (r: seq<string>)
    ensures |r| <= |pscPaths|
  {
    Uniqify(Candidates(pscPaths, pexPaths, fs))
  }

  /** What the analysis promises: a compiled file is in the result exactly
      when it is up to date for some source script; there are no duplicates;
      and every entry is one of the known compiled paths. */
  lemma ModifiedScriptsSpec(pscPaths: seq<string>, pexPaths: seq<string>, fs: FileSystem)
    ensures NoDups(ModifiedScripts(pscPaths, pexPaths, fs))
    ensures forall pex :: pex in ModifiedScripts(pscPaths, pexPaths, fs)
              <==> exists psc :: psc in pscPaths && UpToDate(psc, pex, pexPaths, fs)
    ensures forall pex :: pex in ModifiedScripts(pscPaths, pexPaths, fs) ==> pex in pexPaths
  {
    var cands := Candidates(pscPaths, pexPaths, fs);
    UniqifySpec(cands);
    forall pex
      ensures pex in ModifiedScripts(pscPaths, pexPaths, fs)
              <==> exists psc :: psc in pscPaths && UpToDate(psc, pex, pexPaths, fs)
    {
      CandidatesMembers(pscPaths, pexPaths, fs, pex);
      forall psc ensures Contribution(psc, pexPaths, fs) == Some(pex) <==> UpToDate(psc, pex, pexPaths, fs) {
        ContributionIsUpToDate(psc, pex, pexPaths, fs);
      }
    }
    forall pex | pex in ModifiedScripts(pscPaths, pexPaths, fs) ensures pex in pexPaths {
      var psc :| psc in pscPaths && UpToDate(psc, pex, pexPaths, fs);
      var i :| IsFirstEndingWith(pexPaths, ScriptName(psc) + ".pex", i) && pexPaths[i] == pex;
    }
  }

  /** Equal times leave the compiled file out: the comparison is strict. */
  lemma EqualTimesExclude(psc: string, pexPaths: seq<string>, fs: FileSystem, pex: string)
    requires fs.compileTime(pex).Some?
    requires fs.modifiedTime(psc) == fs.compileTime(pex).value as real
    ensures Contribution(psc, pexPaths, fs) != Some(pex)
  {
  }

  /** The match is by suffix only: `XFoo.pex` is taken for source `Foo`
      when it is listed first. */
  lemma SuffixMatchIsLoose()
    ensures FirstEndingWith(["out/XFoo.pex", "out/Foo.pex"], "Foo" + ".pex") == Some("out/XFoo.pex")
  {
    assert "out/XFoo.pex"[|"out/XFoo.pex"| - 7..] == "Foo.pex";
  }
}
