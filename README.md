# Vitest coverage options and report staging, in Dafny

This project models the coverage module of the Vitest test runner
(`packages/vitest/src/coverage.ts`). The module does three things:

1. **Resolve the c8 options** (`resolveC8Options`). The user's partial
   options are laid over a fixed default record. `reporter` becomes an
   array. `reportsDirectory` is resolved against the project root. The
   temporary directory is `NODE_V8_COVERAGE` when that is set and not
   empty, otherwise `<reportsDirectory>/tmp`.
2. **Prepare the report directories** (`cleanCoverage`, `prepareCoverage`).
   The reports directory is optionally removed recursively. The temporary
   directory is then created with its ancestors.
3. **Fill the report's source-map cache** (`reportCoverage`). Every visited
   file whose path does not contain `/node_modules/` and that still exists
   gets an entry, keyed by its file URL. The entry is its source map with
   `sources` rewritten to file URLs. Then the c8 report runs.

Files and modules:

- `wrappers.dfy`, module `Wrappers`: `Option`, used for fields that may be left out.
- `paths.dfy`, module `Paths`: POSIX paths as lists of segments. It gives
  `Resolve` (the two-argument `pathe.resolve`) and `FileURL`
  (`pathToFileURL(p).href`). It also proves that the string form of a
  normal path reads back to the same path.
- `fs.dfy`, module `Fs`: the disk as the set of existing absolute paths,
  closed under taking a parent. The class `FileSystem` offers `ExistsSync`,
  `RemoveRecursive` (recursive `fs.rmdir`) and `MakeDirectory` (recursive
  `fs.mkdir`).
- `options.dfy`, module `CoverageOptions`: `ResolveC8Options` and its properties.
- `lifecycle.dfy`, module `CoverageLifecycle`: the methods `CleanCoverage`
  and `PrepareCoverage`, both specified by the function `AfterClean`,
  and the properties of `AfterClean`.
- `report.dfy`, module `CoverageReport`: the `Report` class, the
  `ReportCoverage` method with its loop, the function `Register` that
  specifies the loop (the writes the loop makes, one per visited file,
  applied in order to a map), and the properties of `Register`.

The environment is passed in explicitly:

- `NODE_V8_COVERAGE` is an `Option<string>` parameter.
- The process working directory is a `cwd` parameter. It is used when
  `root` is relative, and by the `fs` calls.
- The disk is a `FileSystem` object.

Behaviour of the code worth noting (the model follows the code in each case):

- `prepareCoverage` returns `false` and does nothing when `enabled` is
  true. It cleans only when coverage is disabled (`coverage.ts:128-131`),
  which is the reverse of what its name suggests.
- The `|| [url]` fallback at `coverage.ts:152` is never taken, because
  the result of `Array.prototype.map` is always truthy. Empty `sources`
  stay empty.
- `NODE_V8_COVERAGE` is used as it is, without resolving it
  (`coverage.ts:114`). So the temporary directory can be relative.
- A `reporter` given as an empty array passes through unchanged. So the
  resolved reporter list is non-empty except in that one case.
- `include` and `skipFull` have no default. They stay absent when the
  user leaves them out.
- `existsSync('')` is false, so `cleanCoverage` never removes a reports
  directory given as the empty string. A resolved reports directory is
  always absolute, so this only matters for options built by hand.
- `pathToFileURL` keeps a trailing `/` of its argument that resolving drops:
  `/a/` and `/a` name the same place but get the URLs `file:///a/` and
  `file:///a`.

## Model

| member | source | states |
|---|---|---|
| `Paths.Resolve` | packages/vitest/src/coverage.ts:113-114 | `resolve` returns an absolute, normalised path: reading its result back as a path and formatting it again gives the same string (`ResolveNames` below states where it points) |
| `Paths.ResolveNames` | packages/vitest/src/coverage.ts:113-114 | `resolve(from, to)` names the place `to` names when taken from the place `from` names, for a relative `to` of any number of segments (`out/cov`, `../cov`) as for an absolute one |
| `Paths.ResolveAbsolute` | packages/vitest/src/coverage.ts:113 | an absolute `reportsDirectory` names the same place whatever the root |
| `Paths.ResolveChild` | packages/vitest/src/coverage.ts:114 | `resolve(dir, 'tmp')` on a resolved directory is the string form of that directory's child `tmp` |
| `Paths.LocateFormat` | packages/vitest/src/coverage.ts:113-114 | the string form of a normal path reads back as that same path, so resolved directories name exactly what their segments say |
| `Paths.FileURL` | packages/vitest/src/coverage.ts:148 | `pathToFileURL(p).href` starts with `file://` (`FileURLPath` states what follows it) |
| `Paths.FileURLPath` | packages/vitest/src/coverage.ts:148 | the path part of the URL names the same place as `p`, and the URL ends with `/` exactly when `p` does or `p` names the root |
| `Paths.FileURLInjective` | packages/vitest/src/coverage.ts:148 | files at different places on disk get different file URLs, so their cache keys differ |
| `CoverageOptions.ResolveC8Options` | packages/vitest/src/coverage.ts:99-117 | the resolved reports directory is absolute; the temporary directory is absolute unless it came from the override; the reporter list is non-empty unless the user gave an empty array |
| `CoverageOptions.AbsentTakesDefault` | packages/vitest/src/coverage.ts:100-110 | each left-out option takes its default: enabled false, clean true, cleanOnRerun false, reportsDirectory `./coverage` resolved against root, excludeNodeModules true, the default exclude globs, reporter `['text']`, allowExternal false; include and skipFull stay absent |
| `CoverageOptions.GivenOverrides` | packages/vitest/src/coverage.ts:109 | each given option replaces its default unchanged (shallow spread: a given exclude array replaces the defaults and is not merged with them) |
| `CoverageOptions.ToArray` | packages/vitest/src/coverage.ts:112 | `toArray` wraps a single value in a one-element array and passes an array through (`ReporterIsArray` applies it to the reporter option) |
| `CoverageOptions.GivenReportsDirectory` | packages/vitest/src/coverage.ts:109-113 | a given `reportsDirectory`, relative or absolute, resolves to the path it names when taken from the root |
| `CoverageOptions.ReporterIsArray` | packages/vitest/src/coverage.ts:107-112 | the resolved reporter is an array: absent gives `['text']`, a single format `f` gives `[f]`, an array passes through unchanged |
| `CoverageOptions.ReportsDirectoryResolved` | packages/vitest/src/coverage.ts:104-113 | the resolved reports directory is already normal; left out, it is the child `coverage` of the place `root` names, for any root string |
| `CoverageOptions.DefaultUnderRoot` | packages/vitest/src/coverage.ts:104-113 | resolving the default `./coverage` against any root gives the child `coverage` of the place the root names |
| `CoverageOptions.TempUnderReports` | packages/vitest/src/coverage.ts:114 | without an override, the temporary directory of a resolved reports directory is its child `tmp`, and reads back as that path |
| `CoverageOptions.TempDirectoryChoice` | packages/vitest/src/coverage.ts:114 | a non-empty `NODE_V8_COVERAGE` is the temporary directory as it is; an unset or empty one gives the child `tmp` of the resolved reports directory |
| `CoverageOptions.DefaultLayout` | packages/vitest/src/coverage.ts:104-114 | no reports directory given and no override: for the place `<root>` the root names, the reports go to `<root>/coverage` and the raw data to `<root>/coverage/tmp` (`/proj/coverage/tmp` for `/proj`) |
| `Fs.FileSystem.ExistsSync` | packages/vitest/src/coverage.ts:120-123 | `existsSync` is false for the empty string; when it holds, the path is on disk, and on a disk closed under parents so are all its ancestors |
| `Fs.FileSystem.RemoveRecursive` | packages/vitest/src/coverage.ts:121 | recursive `rmdir` removes the path and everything below it and nothing else |
| `Fs.FileSystem.MakeDirectory` | packages/vitest/src/coverage.ts:124 | recursive `mkdir` adds the path and all its ancestors and removes nothing |
| `Fs.MissingHasNoSubtree` | packages/vitest/src/coverage.ts:120 | when the reports directory does not exist there is nothing below it, so skipping the removal changes nothing |
| `Fs.PresentHasAncestors` | packages/vitest/src/coverage.ts:123 | when the temporary directory exists so do its ancestors, so skipping the `mkdir` changes nothing |
| `CoverageLifecycle.CleanCoverage` | packages/vitest/src/coverage.ts:119-125 | the new disk is `AfterClean` of the old one, with `clean` defaulting to true and no removal for an empty reports directory string; the disk stays closed under parents |
| `CoverageLifecycle.PrepareCoverage` | packages/vitest/src/coverage.ts:127-132 | `enabled` true: returns `false` and leaves the disk unchanged; false: returns `undefined` and has exactly the effect of a clean with the `clean` option |
| `CoverageLifecycle.AfterCleanValid` | packages/vitest/src/coverage.ts:119-125 | a clean keeps the disk closed under parents |
| `CoverageLifecycle.TempExistsAfterClean` | packages/vitest/src/coverage.ts:123-124 | after a clean the temporary directory exists |
| `CoverageLifecycle.CleanRemovesStale` | packages/vitest/src/coverage.ts:120-124 | with `clean`, nothing at or below the reports directory survives except the temporary directory and the directories leading to it |
| `CoverageLifecycle.NoCleanKeepsEverything` | packages/vitest/src/coverage.ts:120-124 | without `clean`, every existing path survives, and only the temporary directory and its ancestors are added |
| `CoverageLifecycle.CleanIdempotent` | packages/vitest/src/coverage.ts:120-124 | a second clean with the same arguments leaves the disk as the first one left it |
| `CoverageLifecycle.CleanLeavesFreshTemp` | packages/vitest/src/coverage.ts:120-124 | with the default temporary directory, a clean leaves the reports directory holding exactly one empty `tmp` directory |
| `CoverageReport.Includes` | packages/vitest/src/coverage.ts:144 | `includes('/node_modules/')` holds exactly when the substring occurs at some position |
| `CoverageReport.FileURLs` | packages/vitest/src/coverage.ts:152 | mapping `pathToFileURL` over `sources` keeps length and order, and each element becomes its file URL |
| `CoverageReport.Rewrite` | packages/vitest/src/coverage.ts:149-153 | the cached map is the visited map with only `sources` replaced, element by element, by file URLs; empty `sources` stay empty and `[url]` is never produced |
| `CoverageReport.ApplyLastWins` | packages/vitest/src/coverage.ts:145-155 | writing entries into a map in order, an entry survives when no later write uses its key |
| `CoverageReport.RegisterKeys` | packages/vitest/src/coverage.ts:142-155 | the cache keys are exactly the file URLs of the visited files that are not under `/node_modules/` and still exist |
| `CoverageReport.RegisterLastWins` | packages/vitest/src/coverage.ts:145-155 | a kept file's entry is its own rewritten map unless a later kept file has the same URL, as in the in-order loop |
| `CoverageReport.EveryKeptFileRegistered` | packages/vitest/src/coverage.ts:142-155 | when the visited files are at distinct places, every kept file has an entry holding its map with its sources as file URLs and every other field unchanged |
| `CoverageReport.Report.constructor` | packages/vitest/src/coverage.ts:138-139 | the report is created with the coverage options and an empty source-map cache |
| `CoverageReport.Report.Run` | packages/vitest/src/coverage.ts:157 | `run` is handed the cache as it stands; nothing is promised about the cache afterwards |
| `CoverageReport.ReportCoverage` | packages/vitest/src/coverage.ts:136-158 | the report runs on `Register` over the visited files, a cache whose keys are exactly the URLs of the kept, existing files |

## Left out

- Filesystem I/O: the calls are modelled on a set of paths, and `await` is not modelled. There is no file-versus-directory distinction and no I/O error (permission denied, a file where a directory is expected). In the source those errors propagate uncaught.
- Windows paths: backslashes and drive letters, which `pathe` normalises, are not modelled. Only '/'-separated POSIX paths are.
- Percent-encoding: `pathToFileURL` percent-encodes characters such as space, `%`, `#` and `?`. `FileURL` is `file://` followed by the resolved path (and the trailing `/` Node keeps), with no encoding.
- The c8 report engine: loading it through `createRequire` and the reports `run()` writes are not modelled. `Report.Run` only records the cache it was handed. c8 may change the cache during `run()`, so nothing is said about the cache afterwards.
- `fs.mkdir('')` fails in Node. The model's `MakeDirectory('')` creates the working directory and its ancestors instead. A resolved temporary directory is never empty, because the override is used only when it is not empty.
- An option key present with the value `undefined`: the spread copies it over the default. The model treats it as absent, so the default applies.
- `allowExternal` is typed `any` in the source. It is modelled as a boolean.
- A source map without `sources`: line 152 would throw a `TypeError`. The map type requires `sources`, so this case cannot arise in the model.
- The `Vitest` context is reduced to its coverage options and `visitedFilesMap`. The map is an insertion-ordered list of entries. The source's `filter` and `forEach` are one loop that checks both conditions.
- The `Reporter` union and the option interfaces (lines 21-97) are types, modelled as datatypes. Glob matching on `exclude`/`include` is not done in this module.
