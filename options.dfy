/**
 * `resolveC8Options`: the user's partial coverage options overlaid on fixed
 * defaults, with the reporter list normalised and the directories resolved.
 */
module CoverageOptions {
  import opened Wrappers
  import opened Paths

  /** The report formats c8 can write; `NoReport` is the format named 'none'. */
  datatype Reporter =
    | Clover | Cobertura | HtmlSpa | Html | JsonSummary | Json | Lcov
    | LcovOnly | NoReport | Teamcity | TextLcov | TextSummary | Text

  /** One value or an array of them. */
  datatype Arrayable<T> = One(item: T) | Many(items: seq<T>)

  /** The options as the user writes them: every field may be left out (`includes` is the `include` option). */
  datatype C8Options = C8Options(
    enabled: Option<bool>,
    reportsDirectory: Option<string>,
    clean: Option<bool>,
    cleanOnRerun: Option<bool>,
    allowExternal: Option<bool>,
    reporter: Option<Arrayable<Reporter>>,
    excludeNodeModules: Option<bool>,
    exclude: Option<seq<string>>,
    includes: Option<seq<string>>,
    skipFull: Option<bool>)

  /**
   * The resolved options. `include` and `skipFull` have no default, so they
   * stay optional here even though the declared type claims every field.
   */
  datatype ResolvedC8Options = ResolvedC8Options(
    enabled: bool,
    reportsDirectory: string,
    clean: bool,
    cleanOnRerun: bool,
    allowExternal: bool,
    reporter: seq<Reporter>,
    excludeNodeModules: bool,
    exclude: seq<string>,
    includes: Option<seq<string>>,
    skipFull: Option<bool>,
    tempDirectory: string)

  /** The glob patterns excluded from coverage when the user gives none. */
  const DefaultExcludes: seq<string> := [
    "coverage/**",
    "packages/*/test{,s}/**",
    "**/*.d.ts",
    "test{,s}/**",
    "test{,-*}.{js,cjs,mjs,ts,tsx,jsx}",
    "**/*{.,-}test.{js,cjs,mjs,ts,tsx,jsx}",
    "**/__tests__/**",
    "**/{karma,rollup,webpack,vite,vitest,jest,ava,babel,nyc}.config.{js,cjs,mjs,ts}",
    "**/.{eslint,mocha}rc.{js,cjs}"
  ]

  /**
   * './coverage'. Written as "./" glued to "coverage" so that the prover can
   * cut it at the separator (`SplitDotSegment`) without comparing the literal
   * character by character, which it does not do reliably.
   */
  const DefaultReportsDirectory: string := "./" + "coverage"

  /** `toArray`: a single value becomes a one-element array, an array stays as it is. */
  function ToArray<T>(a: Arrayable<T>): (r: seq<T>)
    ensures a.One? ==> |r| == 1 && r[0] == a.item
    ensures a.Many? ==> r == a.items
  {
    match a
    case One(x) => [x]
    case Many(xs) => xs
  }

  /** JavaScript truthiness of an environment variable: set and not the empty string. */
  predicate Truthy(env: Option<string>) {
    env.Some? && env.value != ""
  }

  /** `resolve(root, reportsDirectory)` after the defaults are applied. */
  function ResolveReportsDirectory(given: Option<string>, root: string, cwd: Path): string
    requires Normal(cwd)
  {
    Resolve(cwd, root, given.GetOr(DefaultReportsDirectory))
  }

  /** `process.env.NODE_V8_COVERAGE || resolve(reportsDirectory, 'tmp')` */
  function ResolveTempDirectory(reportsDirectory: string, cwd: Path, v8Coverage: Option<string>): string
    requires Normal(cwd)
  {
    if Truthy(v8Coverage) then v8Coverage.value else Resolve(cwd, reportsDirectory, "tmp")
  }

  /**
   * `resolveC8Options(options, root)`. `cwd` is the process's working
   * directory (used when `root` is relative) and `v8Coverage` the value of
   * the NODE_V8_COVERAGE environment variable.
   */
  function ResolveC8Options(options: C8Options, root: string, cwd: Path, v8Coverage: Option<string>): (r: ResolvedC8Options)
    requires Normal(cwd)
    ensures IsAbsolute(r.reportsDirectory)
    ensures Truthy(v8Coverage) || IsAbsolute(r.tempDirectory)
    ensures r.reporter != [] || options.reporter == Some(Many([]))
  {
    var reportsDirectory := ResolveReportsDirectory(options.reportsDirectory, root, cwd);
    ResolvedC8Options(
      enabled := options.enabled.GetOr(false),
      reportsDirectory := reportsDirectory,
      clean := options.clean.GetOr(true),
      cleanOnRerun := options.cleanOnRerun.GetOr(false),
      allowExternal := options.allowExternal.GetOr(false),
      reporter := ToArray(options.reporter.GetOr(One(Text))),
      excludeNodeModules := options.excludeNodeModules.GetOr(true),
      exclude := options.exclude.GetOr(DefaultExcludes),
      includes := options.includes,
      skipFull := options.skipFull,
      tempDirectory := ResolveTempDirectory(reportsDirectory, cwd, v8Coverage))
  }

  // ---------------------------------------------------------------------------
  // Properties of the resolver.

  /** Every option the user leaves out takes its default. */
  lemma AbsentTakesDefault(options: C8Options, root: string, cwd: Path, v8Coverage: Option<string>)
    requires Normal(cwd)
    ensures var r := ResolveC8Options(options, root, cwd, v8Coverage);
      && (options.enabled == None ==> r.enabled == false)
      && (options.clean == None ==> r.clean == true)
      && (options.cleanOnRerun == None ==> r.cleanOnRerun == false)
      && (options.reportsDirectory == None ==> r.reportsDirectory == Resolve(cwd, root, DefaultReportsDirectory))
      && (options.excludeNodeModules == None ==> r.excludeNodeModules == true)
      && (options.exclude == None ==> r.exclude == DefaultExcludes)
      && (options.reporter == None ==> r.reporter == [Text])
      && (options.allowExternal == None ==> r.allowExternal == false)
      && (options.includes == None ==> r.includes == None)
      && (options.skipFull == None ==> r.skipFull == None)
  {
  }

  /** Every option the user gives overrides its default unchanged (shallow: arrays replace, never merge). */
  lemma GivenOverrides(options: C8Options, root: string, cwd: Path, v8Coverage: Option<string>)
    requires Normal(cwd)
    ensures var r := ResolveC8Options(options, root, cwd, v8Coverage);
      && (options.enabled.Some? ==> r.enabled == options.enabled.value)
      && (options.clean.Some? ==> r.clean == options.clean.value)
      && (options.cleanOnRerun.Some? ==> r.cleanOnRerun == options.cleanOnRerun.value)
      && (options.reportsDirectory.Some? ==> r.reportsDirectory == Resolve(cwd, root, options.reportsDirectory.value))
      && (options.excludeNodeModules.Some? ==> r.excludeNodeModules == options.excludeNodeModules.value)
      && (options.exclude.Some? ==> r.exclude == options.exclude.value)
      && (options.allowExternal.Some? ==> r.allowExternal == options.allowExternal.value)
      && (options.includes.Some? ==> r.includes == options.includes)
      && (options.skipFull.Some? ==> r.skipFull == options.skipFull)
  {
  }

  /** A given reports directory, relative or absolute, names that path taken from the root. */
  lemma GivenReportsDirectory(options: C8Options, root: string, cwd: Path, v8Coverage: Option<string>)
    requires Normal(cwd) && options.reportsDirectory.Some?
    ensures var r := ResolveC8Options(options, root, cwd, v8Coverage);
      Locate(cwd, r.reportsDirectory) == Locate(Locate(cwd, root), options.reportsDirectory.value)
  {
    ResolveNames(cwd, root, options.reportsDirectory.value);
  }

  /** The resolved reporter is always an array: a single format is wrapped, an array passes through. */
  lemma ReporterIsArray(options: C8Options, root: string, cwd: Path, v8Coverage: Option<string>)
    requires Normal(cwd)
    ensures var r := ResolveC8Options(options, root, cwd, v8Coverage);
      && (options.reporter == None ==> r.reporter == [Text])
      && (forall f :: options.reporter == Some(One(f)) ==> r.reporter == [f])
      && (forall fs :: options.reporter == Some(Many(fs)) ==> r.reporter == fs)
  {
  }

  /**
   * The reports directory is absolute and already normal; left out, it is
   * the "coverage" directory under the place the root names.
   */
  lemma ReportsDirectoryResolved(options: C8Options, root: string, cwd: Path, v8Coverage: Option<string>)
    requires Normal(cwd)
    ensures var r := ResolveC8Options(options, root, cwd, v8Coverage);
      && r.reportsDirectory == Format(Locate(cwd, r.reportsDirectory))
      && (options.reportsDirectory == None ==> r.reportsDirectory == Format(Locate(cwd, root) + ["coverage"]))
  {
    if options.reportsDirectory == None {
      DefaultUnderRoot(root, cwd);
    }
  }

  /** `resolve(root, './coverage')` is the child "coverage" of the place `root` names. */
  lemma DefaultUnderRoot(root: string, cwd: Path)
    requires Normal(cwd)
    ensures ResolveReportsDirectory(None, root, cwd) == Format(Locate(cwd, root) + ["coverage"])
  {
    DefaultReportsDirectorySplit();
    NormalizeAppends(Locate(cwd, root), ["coverage"]);
  }

  /** './coverage' is the pieces "." and "coverage". */
  lemma DefaultReportsDirectorySplit()
    ensures Split(DefaultReportsDirectory) == [".", "coverage"]
  {
    SplitDotSegment("coverage");
  }

  lemma SplitDotSegment(seg: string)
    requires '/' !in seg
    ensures Split("./" + seg) == [".", seg]
  {
    SplitGlued(seg, "");
    assert seg + "" == seg;
    assert ("/" + seg)[1..] == seg;
    assert Split("/" + seg) == [""] + Split(seg);
    assert Split("/" + seg) == ["", seg];
    SplitGlued(".", "/" + seg);
    assert "." + "" == ".";
    assert "./" + seg == "." + ("/" + seg);
  }

  /** Without an override, the temporary directory is the child "tmp" of a resolved reports directory. */
  lemma TempUnderReports(reports: Path, cwd: Path, v8Coverage: Option<string>)
    requires Normal(cwd) && Normal(reports) && !Truthy(v8Coverage)
    ensures ResolveTempDirectory(Format(reports), cwd, v8Coverage) == Format(reports + ["tmp"])
    ensures Locate(cwd, Format(reports + ["tmp"])) == reports + ["tmp"]
  {
    assert IsSegment("tmp");
    ResolveChild(cwd, reports, "tmp");
    LocateFormat(cwd, reports + ["tmp"]);
  }

  /**
   * The temporary directory is NODE_V8_COVERAGE, taken as it is, when that is
   * set and not empty; otherwise (the empty string included) it is "tmp"
   * inside the resolved reports directory.
   */
  lemma TempDirectoryChoice(options: C8Options, root: string, cwd: Path, v8Coverage: Option<string>)
    requires Normal(cwd)
    ensures var r := ResolveC8Options(options, root, cwd, v8Coverage);
      && (Truthy(v8Coverage) ==> r.tempDirectory == v8Coverage.value)
      && (!Truthy(v8Coverage) ==>
            && r.tempDirectory == Format(Locate(cwd, r.reportsDirectory) + ["tmp"])
            && Locate(cwd, r.tempDirectory) == Locate(cwd, r.reportsDirectory) + ["tmp"])
  {
    var reportsDirectory := ResolveReportsDirectory(options.reportsDirectory, root, cwd);
    var reports := Locate(cwd, reportsDirectory);
    if !Truthy(v8Coverage) {
      TempUnderReports(reports, cwd, v8Coverage);
    }
  }

  lemma DefaultSegments()
    ensures IsSegment("coverage") && IsSegment("tmp")
  {
  }

  /**
   * No reports directory given and no override: the reports go to
   * "<root>/coverage" and the raw data to "<root>/coverage/tmp", for the
   * place the root names ("/proj/coverage/tmp" for the root "/proj").
   */
  lemma DefaultLayout(options: C8Options, root: string, cwd: Path)
    requires Normal(cwd) && options.reportsDirectory == None
    ensures var r := ResolveC8Options(options, root, cwd, None);
      && r.reportsDirectory == Format(Locate(cwd, root) + ["coverage"])
      && r.tempDirectory == Format(Locate(cwd, root) + ["coverage"] + ["tmp"])
  {
    var p := Locate(cwd, root) + ["coverage"];
    DefaultUnderRoot(root, cwd);
    DefaultSegments();
    assert Normal(p);
    TempUnderReports(p, cwd, None);
  }
}
