/**
 * `reportCoverage`: hands c8's report the source map of every file the run
 * visited, keyed by the file's URL, then lets the report run.
 */
module CoverageReport {
  import opened Wrappers
  import opened Paths
  import opened Fs
  import opened CoverageOptions

  /** The source map recorded for a transformed file. */
  datatype RawSourceMap = RawSourceMap(
    version: nat,
    file: string,
    sourceRoot: string,
    sources: seq<string>,
    sourcesContent: seq<string>,
    names: seq<string>,
    mappings: string)

  /** A value of c8's `sourceMapCache`: `{ data: map }`. */
  datatype CacheEntry = CacheEntry(data: RawSourceMap)

  /** `ctx.visitedFilesMap`: file path to source map, in insertion order. */
  type VisitedFiles = seq<(string, RawSourceMap)>

  /** The two parts of the Vitest context the report reads. */
  datatype Vitest = Vitest(coverage: ResolvedC8Options, visitedFilesMap: VisitedFiles)

  const NodeModules: string := "/node_modules/"

  // ---------------------------------------------------------------------------
  // `String.prototype.includes`

  predicate OccursAt(s: string, needle: string, i: int) {
    0 <= i && i + |needle| <= |s| && s[i..i + |needle|] == needle
  }

  /** `s.includes(needle)`: holds exactly when `needle` occurs somewhere in `s`. */
  function Includes(s: string, needle: string): (r: bool)
    ensures r <==> exists i :: OccursAt(s, needle, i)
    decreases |s|
  {
    if |s| < |needle| then false
    else if s[..|needle|] == needle then
      assert OccursAt(s, needle, 0);
      true
    else
      OccursLater(s, needle);
      Includes(s[1..], needle)
  }

  /** When `needle` is not at the front of `s`, it occurs in `s` exactly when it occurs in `s[1..]`. */
  lemma OccursLater(s: string, needle: string)
    requires |s| >= |needle| && s[..|needle|] != needle
    ensures |s| > 0
    ensures (exists i :: OccursAt(s, needle, i)) <==> exists i :: OccursAt(s[1..], needle, i)
  {
    if exists i :: OccursAt(s[1..], needle, i) {
      var i :| OccursAt(s[1..], needle, i);
      assert s[1..][i..i + |needle|] == s[i + 1..i + 1 + |needle|];
      assert OccursAt(s, needle, i + 1);
    }
    if exists i :: OccursAt(s, needle, i) {
      var i :| OccursAt(s, needle, i);
      assert i > 0;
      assert s[1..][i - 1..i - 1 + |needle|] == s[i..i + |needle|];
      assert OccursAt(s[1..], needle, i - 1);
    }
  }

  // ---------------------------------------------------------------------------
  // Rewriting one source map.

  /** `sources.map(i => pathToFileURL(i).href)` */
  function FileURLs(cwd: Path, paths: seq<string>): (urls: seq<string>)
    requires Normal(cwd)
    ensures |urls| == |paths|
    ensures forall i :: 0 <= i < |paths| ==> urls[i] == FileURL(cwd, paths[i])
    decreases |paths|
  {
    if paths == [] then [] else [FileURL(cwd, paths[0])] + FileURLs(cwd, paths[1..])
  }

  /**
   * `{ ...map, sources: map.sources.map(fileURL) || [url] }`: the same
   * sources, in the same order, each as its file URL; every other field is
   * copied. The fallback `[url]` is never taken: an array, even an empty one,
   * is truthy, so empty sources stay empty.
   */
  function Rewrite(cwd: Path, sourceMap: RawSourceMap): (r: RawSourceMap)
    requires Normal(cwd)
    ensures |r.sources| == |sourceMap.sources|
    ensures forall i :: 0 <= i < |sourceMap.sources| ==> r.sources[i] == FileURL(cwd, sourceMap.sources[i])
    ensures r.(sources := sourceMap.sources) == sourceMap
    ensures sourceMap.sources == [] ==> r.sources == []
  {
    sourceMap.(sources := FileURLs(cwd, sourceMap.sources))
  }

  // ---------------------------------------------------------------------------
  // Filling the cache.

  /** A visited file gets a cache entry when it is not under node_modules and still exists. */
  predicate Registered(files: set<Path>, cwd: Path, file: string)
    requires Normal(cwd)
  {
    !Includes(file, NodeModules) && Exists(files, cwd, file)
  }

  /** What the loop writes for one visited file: nothing, or its URL and its rewritten map. */
  function Write(files: set<Path>, cwd: Path, visited: (string, RawSourceMap)): Option<(string, CacheEntry)>
    requires Normal(cwd)
  {
    if Registered(files, cwd, visited.0) then Some((FileURL(cwd, visited.0), CacheEntry(Rewrite(cwd, visited.1))))
    else None
  }

  /** What the loop writes, one item per visited file, in order. */
  function Writes(files: set<Path>, cwd: Path, visited: VisitedFiles): seq<Option<(string, CacheEntry)>>
    requires Normal(cwd)
  {
    seq(|visited|, j requires 0 <= j < |visited| => Write(files, cwd, visited[j]))
  }

  /** `m` with the writes `ws` made in order: a later write to a key replaces an earlier one. */
  function Apply<K, V>(m: map<K, V>, ws: seq<Option<(K, V)>>): map<K, V>
    decreases |ws|
  {
    if ws == [] then m
    else
      var before := Apply(m, ws[..|ws| - 1]);
      match ws[|ws| - 1]
      case None => before
      case Some(kv) => before[kv.0 := kv.1]
  }

  /** The keys that `ws` writes. */
  ghost function WrittenKeys<K, V>(ws: seq<Option<(K, V)>>): set<K> {
    set j | 0 <= j < |ws| && ws[j].Some? :: ws[j].value.0
  }

  /** Writing adds exactly the written keys. */
  lemma {:induction false} ApplyKeys<K, V>(m: map<K, V>, ws: seq<Option<(K, V)>>)
    ensures Apply(m, ws).Keys == m.Keys + WrittenKeys(ws)
    decreases |ws|
  {
    if ws != [] {
      var init := ws[..|ws| - 1];
      ApplyKeys(m, init);
      assert forall j :: 0 <= j < |init| ==> init[j] == ws[j];
      if ws[|ws| - 1].Some? {
        assert WrittenKeys(ws) == WrittenKeys(init) + {ws[|ws| - 1].value.0};
      } else {
        assert WrittenKeys(ws) == WrittenKeys(init);
      }
    }
  }

  /** A write survives when no later write has the same key. */
  lemma {:induction false} ApplyLastWins<K, V>(m: map<K, V>, ws: seq<Option<(K, V)>>, i: nat)
    requires i < |ws| && ws[i].Some?
    requires forall j :: i < j < |ws| && ws[j].Some? ==> ws[j].value.0 != ws[i].value.0
    ensures ws[i].value.0 in Apply(m, ws) && Apply(m, ws)[ws[i].value.0] == ws[i].value.1
    decreases |ws|
  {
    if i < |ws| - 1 {
      var init := ws[..|ws| - 1];
      assert init[i] == ws[i];
      forall j | i < j < |init| && init[j].Some?
        ensures init[j].value.0 != init[i].value.0
      {
        assert init[j] == ws[j];
      }
      ApplyLastWins(m, init, i);
    }
  }

  /** The cache after the loop has gone over `visited` in order. */
  function Register(cache: map<string, CacheEntry>, files: set<Path>, cwd: Path, visited: VisitedFiles): map<string, CacheEntry>
    requires Normal(cwd)
  {
    Apply(cache, Writes(files, cwd, visited))
  }

  /** One more visited file: the cache gains its entry when it is kept, and is unchanged otherwise. */
  lemma RegisterNext(files: set<Path>, cwd: Path, visited: VisitedFiles, i: nat)
    requires Normal(cwd) && i < |visited|
    ensures var before := Register(map[], files, cwd, visited[..i]);
      Register(map[], files, cwd, visited[..i + 1]) ==
        if Registered(files, cwd, visited[i].0)
        then before[FileURL(cwd, visited[i].0) := CacheEntry(Rewrite(cwd, visited[i].1))]
        else before
  {
    var ws := Writes(files, cwd, visited[..i + 1]);
    assert ws[..i] == Writes(files, cwd, visited[..i]);
    assert ws[i] == Write(files, cwd, visited[i]);
  }

  /** The URLs of the visited files that get an entry. */
  ghost function Landed(files: set<Path>, cwd: Path, visited: VisitedFiles): set<string>
    requires Normal(cwd)
  {
    set j | 0 <= j < |visited| && Registered(files, cwd, visited[j].0) :: FileURL(cwd, visited[j].0)
  }

  /** The loop adds exactly the URLs of the files that are kept and exist. */
  lemma RegisterKeys(cache: map<string, CacheEntry>, files: set<Path>, cwd: Path, visited: VisitedFiles)
    requires Normal(cwd)
    ensures Register(cache, files, cwd, visited).Keys == cache.Keys + Landed(files, cwd, visited)
  {
    var ws := Writes(files, cwd, visited);
    ApplyKeys(cache, ws);
    forall u | u in Landed(files, cwd, visited)
      ensures u in WrittenKeys(ws)
    {
      var j :| 0 <= j < |visited| && Registered(files, cwd, visited[j].0) && u == FileURL(cwd, visited[j].0);
      assert ws[j].Some? && ws[j].value.0 == u;
    }
    forall u | u in WrittenKeys(ws)
      ensures u in Landed(files, cwd, visited)
    {
      var j :| 0 <= j < |ws| && ws[j].Some? && ws[j].value.0 == u;
      assert ws[j] == Write(files, cwd, visited[j]);
    }
  }

  /**
   * A kept file's entry is its own rewritten source map, unless a later kept
   * file has the same URL (then the later one wins, as in the source's loop).
   */
  lemma RegisterLastWins(cache: map<string, CacheEntry>, files: set<Path>, cwd: Path, visited: VisitedFiles, i: nat)
    requires Normal(cwd) && i < |visited| && Registered(files, cwd, visited[i].0)
    requires forall j :: i < j < |visited| && Registered(files, cwd, visited[j].0) ==>
               FileURL(cwd, visited[j].0) != FileURL(cwd, visited[i].0)
    ensures FileURL(cwd, visited[i].0) in Register(cache, files, cwd, visited)
    ensures Register(cache, files, cwd, visited)[FileURL(cwd, visited[i].0)] == CacheEntry(Rewrite(cwd, visited[i].1))
  {
    var ws := Writes(files, cwd, visited);
    assert ws[i] == Some((FileURL(cwd, visited[i].0), CacheEntry(Rewrite(cwd, visited[i].1))));
    forall j | i < j < |ws| && ws[j].Some?
      ensures ws[j].value.0 != ws[i].value.0
    {
      assert ws[j] == Write(files, cwd, visited[j]);
    }
    ApplyLastWins(cache, ws, i);
  }

  /**
   * When the visited files name distinct places on disk, every kept file has
   * its own entry, holding its source map with the sources as file URLs.
   */
  lemma EveryKeptFileRegistered(files: set<Path>, cwd: Path, visited: VisitedFiles, i: nat)
    requires Normal(cwd) && i < |visited| && Registered(files, cwd, visited[i].0)
    requires forall j, k :: 0 <= j < k < |visited| ==> Locate(cwd, visited[j].0) != Locate(cwd, visited[k].0)
    ensures FileURL(cwd, visited[i].0) in Register(map[], files, cwd, visited)
    ensures var entry := Register(map[], files, cwd, visited)[FileURL(cwd, visited[i].0)];
      && entry.data.(sources := visited[i].1.sources) == visited[i].1
      && |entry.data.sources| == |visited[i].1.sources|
      && forall k :: 0 <= k < |visited[i].1.sources| ==> entry.data.sources[k] == FileURL(cwd, visited[i].1.sources[k])
  {
    forall j | i < j < |visited| && Registered(files, cwd, visited[j].0)
      ensures FileURL(cwd, visited[j].0) != FileURL(cwd, visited[i].0)
    {
      FileURLInjective(cwd, visited[j].0, visited[i].0);
    }
    RegisterLastWins(map[], files, cwd, visited, i);
  }

  // ---------------------------------------------------------------------------
  // The report.

  /** c8's report: the options it was created with and its source-map cache. */
  class Report {
    const options: ResolvedC8Options
    var sourceMapCache: map<string, CacheEntry>
    /** The cache `run()` read, once it has run. */
    ghost var ranWith: Option<map<string, CacheEntry>>

    /** `createReport(options)` */
    constructor (options: ResolvedC8Options)
      ensures this.options == options && sourceMapCache == map[] && ranWith == None
    {
      this.options := options;
      sourceMapCache := map[];
      ranWith := None;
    }

    /**
     * `report.run()`: writes the reports from the cache it is handed. What
     * it leaves in the cache afterwards is up to c8, so nothing is promised
     * about it.
     */
    method Run()
      modifies this
      ensures ranWith == Some(old(sourceMapCache))
    {
      ranWith := Some(sourceMapCache);
    }
  }

  /**
   * `reportCoverage(ctx)`: creates the report from the coverage options,
   * fills its source-map cache from the visited files, and runs it.
   */
  method ReportCoverage(fs: FileSystem, ctx: Vitest) returns (report: Report)
    requires fs.Valid()
    ensures fresh(report) && report.options == ctx.coverage
    ensures report.ranWith == Some(Register(map[], fs.entries, fs.cwd, ctx.visitedFilesMap))
    ensures report.ranWith.value.Keys == Landed(fs.entries, fs.cwd, ctx.visitedFilesMap)
  {
    report := new Report(ctx.coverage);
    var visited := ctx.visitedFilesMap;
    var i := 0;
    while i < |visited|
      invariant 0 <= i <= |visited|
      invariant report.sourceMapCache == Register(map[], fs.entries, fs.cwd, visited[..i])
      invariant report.ranWith == None
    {
      var (file, sourceMap) := visited[i];
      RegisterNext(fs.entries, fs.cwd, visited, i);
      if !Includes(file, NodeModules) && fs.ExistsSync(file) {
        var url := FileURL(fs.cwd, file);
        report.sourceMapCache := report.sourceMapCache[url := CacheEntry(sourceMap.(sources := FileURLs(fs.cwd, sourceMap.sources)))];
      }
      i := i + 1;
    }
    assert visited[..i] == visited;
    RegisterKeys(map[], fs.entries, fs.cwd, visited);
    report.Run();
  }
}
