/**
 * `cleanCoverage` and `prepareCoverage`: the report directories on disk
 * before a run.
 */
module CoverageLifecycle {
  import opened Wrappers
  import opened Paths
  import opened Fs
  import opened CoverageOptions

  /**
   * The disk after a clean: with `clean`, everything at or below the reports
   * directory is gone; then the temporary directory and its ancestors exist.
   */
  function AfterClean(entries: set<Path>, reports: Path, temp: Path, clean: bool): set<Path> {
    (if clean then entries - Subtree(entries, reports) else entries) + Ancestors(temp)
  }

  /**
   * `cleanCoverage(options, clean = true)`: a left-out `clean` means true.
   * The reports directory is removed only when asked and when it exists (an
   * empty string never exists, so it is never removed); the temporary
   * directory is created only when it is missing.
   */
  method CleanCoverage(fs: FileSystem, options: ResolvedC8Options, clean: Option<bool>)
    requires fs.Valid()
    modifies fs
    ensures fs.Valid()
    ensures fs.entries == AfterClean(old(fs.entries), Locate(fs.cwd, options.reportsDirectory),
                                     Locate(fs.cwd, options.tempDirectory),
                                     clean.GetOr(true) && options.reportsDirectory != "")
  {
    ghost var before := fs.entries;
    ghost var reports, temp := Locate(fs.cwd, options.reportsDirectory), Locate(fs.cwd, options.tempDirectory);
    ghost var removing := clean.GetOr(true) && options.reportsDirectory != "";
    if clean.GetOr(true) && fs.ExistsSync(options.reportsDirectory) {
      fs.RemoveRecursive(options.reportsDirectory);
    } else if removing {
      MissingHasNoSubtree(before, reports);
    }
    assert fs.entries == if removing then before - Subtree(before, reports) else before;
    if !fs.ExistsSync(options.tempDirectory) {
      fs.MakeDirectory(options.tempDirectory);
    } else {
      PresentHasAncestors(fs.entries, temp);
    }
  }

  /** What `prepareCoverage` returns: `false`, or nothing (`undefined`). */
  datatype Returned = ReturnedFalse | ReturnedUndefined

  /**
   * `prepareCoverage(options)`, as written: when coverage is ENABLED it
   * returns `false` and touches nothing; when it is disabled it cleans with
   * the `clean` option and returns nothing.
   */
  method PrepareCoverage(fs: FileSystem, options: ResolvedC8Options) returns (r: Returned)
    requires fs.Valid()
    modifies fs
    ensures fs.Valid()
    ensures options.enabled ==> r == ReturnedFalse && fs.entries == old(fs.entries)
    ensures !options.enabled ==> r == ReturnedUndefined
    ensures !options.enabled ==>
      fs.entries == AfterClean(old(fs.entries), Locate(fs.cwd, options.reportsDirectory),
                               Locate(fs.cwd, options.tempDirectory),
                               options.clean && options.reportsDirectory != "")
  {
    if options.enabled {
      return ReturnedFalse;
    }
    CleanCoverage(fs, options, Some(options.clean));
    r := ReturnedUndefined;
  }

  // ---------------------------------------------------------------------------
  // Properties of a clean.

  /** A clean keeps the disk closed under parents. */
  lemma AfterCleanValid(entries: set<Path>, reports: Path, temp: Path, clean: bool)
    requires PrefixClosed(entries)
    ensures PrefixClosed(AfterClean(entries, reports, temp, clean))
  {
  }

  /** After a clean the temporary directory exists, whatever was there before. */
  lemma TempExistsAfterClean(entries: set<Path>, reports: Path, temp: Path, clean: bool)
    ensures temp in AfterClean(entries, reports, temp, clean)
  {
  }

  /**
   * With `clean`, nothing at or below the reports directory survives except
   * the temporary directory and the directories on the way to it.
   */
  lemma CleanRemovesStale(entries: set<Path>, reports: Path, temp: Path)
    ensures forall p :: p in AfterClean(entries, reports, temp, true) && reports <= p ==> p <= temp
  {
  }

  /** Without `clean`, no existing path is removed. */
  lemma NoCleanKeepsEverything(entries: set<Path>, reports: Path, temp: Path)
    ensures entries <= AfterClean(entries, reports, temp, false)
    ensures AfterClean(entries, reports, temp, false) - entries <= Ancestors(temp)
  {
  }

  /** Cleaning twice with the same arguments leaves the same disk as cleaning once. */
  lemma CleanIdempotent(entries: set<Path>, reports: Path, temp: Path, clean: bool)
    ensures var once := AfterClean(entries, reports, temp, clean);
      AfterClean(once, reports, temp, clean) == once
  {
  }

  /**
   * With the temporary directory at its default place, a clean leaves the
   * reports directory holding exactly one empty "tmp" directory.
   */
  lemma CleanLeavesFreshTemp(entries: set<Path>, reports: Path)
    ensures var after := AfterClean(entries, reports, reports + ["tmp"], true);
      Subtree(after, reports) == {reports, reports + ["tmp"]}
  {
    var temp := reports + ["tmp"];
    var after := AfterClean(entries, reports, temp, true);
    assert reports == temp[..|reports|];
    assert reports <= temp && temp <= temp;
    forall p | p in Subtree(after, reports)
      ensures p == reports || p == temp
    {
      assert p <= temp;
      if |p| == |reports| {
        assert p == temp[..|reports|];
      } else {
        assert p == temp[..|p|];
      }
    }
  }
}
