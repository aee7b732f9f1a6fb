# Blender Launcher core, modelled in Dafny

Blender Launcher is a desktop application. It downloads Blender builds,
keeps them in a library folder and launches them. This project models the
parts of it that decide things. The screens, threads and network around
those decisions are left out.

- **Version search queries** (`VersionMatcher`). A query such as `^.^.*-daily@^` names a
  major, minor and patch position, an optional branch, an optional build hash and a commit
  time. The module models how such a query is parsed with the query regex, how it is
  validated, how it is printed back, and how `BInfoMatcher.match` narrows a list of builds.
  Narrowing goes field by field: newest (`^`), oldest (`-`), any (`*`), or an exact value.
- **The task queue** (`Tasks`). A `TaskQueue` object holds a backlog of tasks, a dictionary
  from each worker to its current task, worker spawning and re-spawning, and one polling
  step of a worker.
- **The stable-build scraper cache** (`ScraperCache`). The module models the cache
  dictionary, its JSON-ready dictionary form and how it is read from a file.
- **The Blender API file** (`BlApiManager`). The module models the version list, the LTS
  versions, the drop-down positions and the rule for when the stable-build cache file is
  rewritten.
- **`.blend` file headers** (`BlendfileReader`). Detection tries uncompressed, then gzip,
  then zstd. The version is read from the header bytes.
- **Background tasks**:
  - `Extractor`: archive dispatch, progress reports and the extraction result.
  - `LibraryDrawer`: scanning the library folders for builds.
  - `Renamer`: the target path of a rename.
- **Library entries** (`LibraryWidget`):
  - the portable configuration folder and "make portable";
  - the delete action's label and question;
  - what a finished removal does to its list;
  - the quick-launch favourite.
- **Repository visibility settings**. `RepoVisibilityView` models one row with a library
  checkbox and a download checkbox. `RepoGroup` models the four rows, whose two automated
  download boxes share one button group. Both are objects whose checkbox slots run
  synchronously, as Qt runs them.
- **Patch-note cleaning** (`StringUtils`): `add_bullet_point` and `patch_note_cleaner`.

Supporting modules:

- `Wrappers` holds `Option` and `Result`.
- `Text` holds decimal spellings, Python's string order and ASCII lower-casing.
- `Paths` models POSIX paths as lists of components.
- `Semver` models the `semver` package's `Version` with `parse` and `str`.
- `DateTimes` models aware datetimes as ordered instants. `fromisoformat`, `isoformat` and
  `str` are passed in as functions.

## Model

| member | source | states |
|---|---|---|
| VersionMatcher.BuildLessIsStrictOrder | source/modules/version_matcher.py:40-44 | `__lt__` on builds is irreflexive, asymmetric and transitive, and compares any two builds that differ in version or commit time |
| VersionMatcher.FirstBadField | source/modules/version_matcher.py:162-164 | the field loop of `__post_init__` reports a field that is a string other than `^`, `*`, `-`, and every field before it is not a string or is a mark; it reports nothing exactly when every string field is a mark |
| VersionMatcher.PostInitError | source/modules/version_matcher.py:162-169 | construction fails exactly when a position or commit-time string is not a mark, or the build hash or branch is `^` or `-`; the message names the first bad one of major, minor, patch and commit time; with those fine, a bad hash gives `build_hash cannot be temporally matched`; with the hash fine too, a bad branch gives `branch cannot be temporally matched` |
| VersionMatcher.NewQuery | source/modules/version_matcher.py:140-169 | a query is constructed exactly when `__post_init__` accepts it, and it is then unchanged |
| VersionMatcher.Default | source/modules/version_matcher.py:177-179 | the default query `^.^.^` with commit time `^` is valid and has no branch or hash |
| VersionMatcher.DefaultConstructs | source/modules/version_matcher.py:177-179 | the default query passes validation |
| VersionMatcher.WithBranch | source/modules/version_matcher.py:192-200 | only the branch changes; from a valid query it fails exactly for the branch `^` or `-` |
| VersionMatcher.WithBuildHash | source/modules/version_matcher.py:202-210 | only the build hash changes; from a valid query it fails exactly for the hash `^` or `-` |
| VersionMatcher.WithCommitTime | source/modules/version_matcher.py:212-220 | only the commit time changes; from a valid query it fails exactly for a string that is not a mark |
| VersionMatcher.FullMatchSound | source/modules/version_matcher.py:74-82 | whatever the query pattern matches is the rendering of well-formed groups, and the match reads those groups |
| VersionMatcher.FullMatchRender | source/modules/version_matcher.py:74-82 | the pattern matches the rendering of any well-formed groups and reads them back |
| VersionMatcher.RegexMatchIff | source/modules/version_matcher.py:74-82 | `match` succeeds with groups `g` exactly when the string is `g` rendered, optionally followed by one newline (`$` semantics) |
| VersionMatcher.ToPosition | source/modules/version_matcher.py:125-130 | a group becomes a number exactly when it is a non-empty run of digits; otherwise it stays text |
| VersionMatcher.ToMoment | source/modules/version_matcher.py:122-135 | an absent commit time is `^`; the group becomes an instant exactly when it is not a mark and `fromisoformat` reads it |
| VersionMatcher.Parse | source/modules/version_matcher.py:109-137 | whatever `parse` returns passes `__post_init__` |
| VersionMatcher.ParseAcceptsOnlyQuerySyntax | source/modules/version_matcher.py:112-114 | only renderings of well-formed groups parse; every other string raises ValueError |
| VersionMatcher.ParseRender | source/modules/version_matcher.py:109-137 | parsing a rendering is construction of the query made from its groups |
| VersionMatcher.ParseToString | source/modules/version_matcher.py:181-190 | for every printable query, `parse(str(q)) == q` |
| VersionMatcher.ToStringRender | source/modules/version_matcher.py:181-190 | a printable query prints as the rendering of well-formed groups |
| VersionMatcher.FromGroupsOf | source/modules/version_matcher.py:118-137 | the groups of a printed query are read back as the same query |
| VersionMatcher.SerializationKeepsMatches | source/modules/version_matcher.py:310-334 | the query read back from `str(q)` selects exactly the builds `q` selects |
| VersionMatcher.EmptyBranchDoesNotRoundTrip | source/modules/version_matcher.py:181-190 | a query with the empty branch is valid but prints without it and reads back with no branch |
| VersionMatcher.ParseNumbers | source/modules/version_matcher.py:338 | `"a.b.c"` parses to the three numbers, for every three naturals |
| VersionMatcher.ParseMarks | source/modules/version_matcher.py:339 | `"^.*.-"` parses to the three marks |
| VersionMatcher.ParseBranch | source/modules/version_matcher.py:340 | `"*.*.*-daily"` has branch `daily` |
| VersionMatcher.ParseBuildHash | source/modules/version_matcher.py:341-343 | `"*.*.*+cb886aba06d5"` has that build hash |
| VersionMatcher.ParseCommitTime | source/modules/version_matcher.py:344-346 | an ISO commit time with `T` parses to the instant `fromisoformat` gives |
| VersionMatcher.ParseCommitTimeWithSpace | source/modules/version_matcher.py:347-349 | an ISO commit time with a space parses to the instant `fromisoformat` gives |
| VersionMatcher.ParseTimeOnly | source/modules/version_matcher.py:344-349 | `*.*.*@t`, for any time token that `fromisoformat` reads, is a query for that instant |
| VersionMatcher.ParseBadCommitTime | source/modules/version_matcher.py:132-135 | a commit time that `fromisoformat` rejects stays text, and construction then raises |
| VersionMatcher.ParseInvalid | source/modules/version_matcher.py:351-355 | `parse("abc")` raises ValueError |
| VersionMatcher.KeyLessIsStrictTotalOrder | source/modules/version_matcher.py:239-250 | the order that `max` and `min` use is a strict total order on field keys |
| VersionMatcher.MaxKey | source/modules/version_matcher.py:241-243 | `max` gives a key of the list that no key of the list exceeds |
| VersionMatcher.MinKey | source/modules/version_matcher.py:248-250 | `min` gives a key of the list that no key of the list undercuts |
| VersionMatcher.Keep | source/modules/version_matcher.py:242-243 | the comprehension never keeps more builds than there are candidates |
| VersionMatcher.KeepSpec | source/modules/version_matcher.py:242-243 | a build is kept exactly when it is a candidate whose field equals the key |
| VersionMatcher.Stage | source/modules/version_matcher.py:239-252 | one field's stage (`*`, `^`, `-` or a value) keeps a subsequence of the candidates, in order |
| VersionMatcher.Matching | source/modules/version_matcher.py:233-257 | the corrected `match` returns a subsequence of the builds, in order |
| VersionMatcher.MatchingAsWritten | source/modules/version_matcher.py:233-257 | `match` as written raises ValueError only when there are no builds |
| VersionMatcher.AsWrittenAgrees | source/modules/version_matcher.py:233-257 | on non-empty builds, `match` as written never raises and returns what the corrected one returns |
| VersionMatcher.AsWrittenRaisesWithoutBuilds | source/modules/version_matcher.py:241 | with no builds, `match` on the default query raises |
| VersionMatcher.NoBuildsNoMatch | source/modules/version_matcher.py:254-255 | with no builds, the corrected `match` returns `()` for every query |
| VersionMatcher.Match | source/modules/version_matcher.py:233-257 | the loop over the fields computes the corrected `match` |
| VersionMatcher.NewestKeepsTheLargest | source/modules/version_matcher.py:239-243 | `^` keeps exactly the candidates whose field no candidate exceeds |
| VersionMatcher.OldestKeepsTheSmallest | source/modules/version_matcher.py:246-250 | `-` keeps exactly the candidates whose field no candidate undercuts |
| VersionMatcher.ExtremeStageNonEmpty | source/modules/version_matcher.py:239-250 | `^` and `-` never empty a non-empty candidate list |
| VersionMatcher.MatchingSkips | source/modules/version_matcher.py:244-245 | a `*` or absent field leaves the candidates as they are |
| VersionMatcher.MatchingNarrows | source/modules/version_matcher.py:239-243 | a `^` field narrows a non-empty list to its newest builds by that field |
| VersionMatcher.MatchingKeeps | source/modules/version_matcher.py:251-252 | a concrete value that some candidate has narrows to the builds that have it |
| VersionMatcher.DefaultMatchesNewest | source/modules/version_matcher.py:177-179 | the default query keeps exactly the builds that no build is newer than under `__lt__` |
| VersionMatcher.ChainSound | source/modules/version_matcher.py:40-44 | a build kept by newest major, minor, patch and commit time is not older than any build under `__lt__` |
| VersionMatcher.ChainComplete | source/modules/version_matcher.py:40-44 | a build that no build is newer than under `__lt__` survives every stage |
| VersionMatcher.NewestIs | source/modules/version_matcher.py:239-243 | `^` keeps the builds with the key that some build has and no build exceeds |
| VersionMatcher.OldestIs | source/modules/version_matcher.py:246-250 | `-` keeps the builds with the key that some build has and no build undercuts |
| VersionMatcher.MatchLatestMinor | source/modules/version_matcher.py:277-282 | `("^", "^", "*")` with the default commit time `^` keeps only the newest 4.3 build |
| VersionMatcher.MatchLatestMinorAnyTime | source/modules/version_matcher.py:277-282 | with commit time `*`, the same query keeps all three 4.3 builds, in order |
| VersionMatcher.LatestMinor | source/modules/version_matcher.py:277-282 | any query of that shape keeps the newest 4.3 build, or all three when the commit time is not `^` |
| VersionMatcher.MatchPatchFourteen | source/modules/version_matcher.py:285-288 | `("*", "*", 14)` finds the 3.6.14 build |
| VersionMatcher.MatchLts | source/modules/version_matcher.py:291-294 | `branch="lts"` finds the 3.6.14 build |
| VersionMatcher.MatchLatestDaily | source/modules/version_matcher.py:297-300 | `("^", "*", "*", branch="daily")` finds the 4.3.0 build of 2024-07-30 |
| VersionMatcher.MatchOldestMajor | source/modules/version_matcher.py:303-306 | `("-", "*", "^")` finds 1.2.4 |
| Tasks.Busy | source/modules/tasks.py:67-68 | the busy map holds exactly the workers with a task, each with its task |
| Tasks.FirstWithTask | source/modules/tasks.py:61-65 | the result is the first worker in dictionary order whose entry is the task, or `None` when there is none |
| Tasks.FirstWithTaskIsBusy | source/modules/tasks.py:61-68 | `thread_with_task` finds a worker exactly when some busy worker holds the task, and the one it finds holds it |
| Tasks.Remove | source/modules/tasks.py:50 | popping a worker leaves every other worker, in order, one fewer when it was there |
| Tasks.TaskQueue.constructor | source/modules/tasks.py:18-34 | an empty backlog and `worker_count` idle workers named `"0"`, `"1"`, and so on, in order, each spawned with `start` False and not running |
| Tasks.TaskQueue.SpawnNewWorker | source/modules/tasks.py:36-59 | a fresh idle worker is added last with its name, re-spawn setting and `start` flag, running exactly when `start` is set, and nothing else changes |
| Tasks.TaskQueue.Start | source/modules/tasks.py:70-72 | every worker in the dictionary runs afterwards, and nothing else about any worker or the queue changes |
| Tasks.TaskQueue.Append | source/modules/tasks.py:26-29 | the task goes to the back; a full bounded deque drops its front, and the bound is never exceeded |
| Tasks.TaskQueue.PopLeft | source/modules/tasks.py:96 | the front task leaves, and the FIFO history is kept |
| Tasks.TaskQueue.WorkerStep | source/modules/tasks.py:92-114 | one poll of a running worker takes the front task into the worker's entry and records an error when the task raises; with nothing waiting, only the first poll clears the entry |
| Tasks.TaskQueue.Retire | source/modules/tasks.py:50 | the worker leaves the dictionary and its thread state, and nothing else changes |
| Tasks.TaskQueue.Finished | source/modules/tasks.py:47-53 | the finished worker stops; one with `readd_on_crash` is replaced by a fresh idle worker with its name, added last, which runs only when its captured `start` flag is set, so with `start` False the running workers drop by one; the worker count never changes |
| Tasks.TaskQueue.FinishedRestarting | source/modules/tasks.py:47-53 | as intended, the replacement is started, so a re-spawning worker's finish keeps the number of running workers |
| Tasks.TaskQueue.ThreadWithTask | source/modules/tasks.py:61-65 | the loop returns the first worker, in dictionary order, whose entry is the task |
| Tasks.TaskQueue.GetBusyThreads | source/modules/tasks.py:67-68 | exactly the workers with a task, each with its task |
| ScraperCache.FolderFromDict | source/modules/scraper_cache.py:42-47 | reading a folder dictionary succeeds exactly when its date parses; the folder then has that date and, in order, the build `from_dict` makes of each `(link, dict)` pair |
| ScraperCache.FolderRoundTrip | source/modules/scraper_cache.py:42-53 | `from_dict(to_dict(f)) == f` for every folder |
| ScraperCache.CacheToDict | source/modules/scraper_cache.py:101-102 | the dictionary has one entry per version, under its `str`, holding the folder's dictionary |
| ScraperCache.CacheFromDict | source/modules/scraper_cache.py:92-99 | a missing `"folders"` is an empty cache; otherwise reading fails exactly when a key is not a version or a date does not parse, and it reads every entry |
| ScraperCache.CacheRoundTripKeys | source/modules/scraper_cache.py:92-102 | `from_dict(to_dict(c))` succeeds and has exactly the versions of `c` |
| ScraperCache.CacheRoundTrip | source/modules/scraper_cache.py:92-102 | `from_dict(to_dict(c)) == c` for every cache |
| ScraperCache.ScraperCache.constructor | source/modules/scraper_cache.py:56-58 | a new cache has no folders |
| ScraperCache.ScraperCache.Get | source/modules/scraper_cache.py:63-64 | `cache[ver]` gives the version's folder, and raises KeyError exactly when there is none |
| ScraperCache.ScraperCache.NewBuild | source/modules/scraper_cache.py:66-69 | `new_build` puts a fresh empty folder, dated `dt` or the epoch, under the version; no other version changes |
| ScraperCache.ScraperCache.ToDict | source/modules/scraper_cache.py:101-102 | one entry per version, under its spelling |
| ScraperCache.ToDictRoundTrip | source/modules/scraper_cache.py:92-102 | a cache object's dictionary reads back as its folders |
| ScraperCache.TryFromFile | source/modules/scraper_cache.py:71-99 | `None` for a missing file, an OSError or text that is not JSON; a file that is not UTF-8 raises UnicodeDecodeError; JSON of a shape `from_dict` cannot read raises its KeyError, TypeError or AttributeError; otherwise the result of `from_dict`, errors included |
| ScraperCache.FromFileOrDefault | source/modules/scraper_cache.py:87-90 | the loaded cache, an empty cache whenever loading gives `None`, and `from_dict`'s error otherwise |
| ScraperCache.FileRoundTrip | source/modules/scraper_cache.py:71-102 | a cache written as `to_dict` JSON loads back from its file unchanged |
| ScraperCache.NoFoldersIsEmpty | source/modules/scraper_cache.py:92-99 | a file without `"folders"` loads as an empty cache |
| Semver.ParseToString | source/modules/scraper_cache.py:92-102 | `Version.parse(str(v)) == v` for every version |
| Semver.ToStringInjective | source/modules/scraper_cache.py:101-102 | distinct versions have distinct spellings, so `str` keys the dictionary one to one |
| BlApiManager.ReadBlenderVersionList | source/modules/bl_api_manager.py:80-81 | the API's version list, or an empty one when the API has none |
| BlApiManager.LtsBlenderVersion | source/modules/bl_api_manager.py:84-85 | exactly the versions labelled `"LTS"` |
| BlApiManager.LtsKeysInOrder | source/modules/bl_api_manager.py:84-85 | the filter keeps the list's order |
| BlApiManager.DropdownBlenderVersion | source/modules/bl_api_manager.py:88-98 | every version of the list, mapped to its position |
| BlApiManager.DropdownInjective | source/modules/bl_api_manager.py:88-98 | no two versions share a drop-down position |
| BlApiManager.Source | source/modules/bl_api_manager.py:37-43 | the data given, or else the bundled file's document, and none when that file is absent, unreadable or not JSON |
| BlApiManager.Decide | source/modules/bl_api_manager.py:34-67 | JSONDecodeError is raised exactly when the bundled file it falls back on, or the cached file, is not JSON; an OSError reading either file is caught and nothing is written; nothing is written without data; with no cached file, or when the cached file or the data has no `api_file_version` (the KeyError path), the data is written; with both versions, it is written exactly when they differ and the cached one is not greater; whatever is written is the data |
| BlApiManager.StrOrder | source/modules/bl_api_manager.py:50-55 | with strings, "neither equal nor greater" is exactly "smaller" |
| BlApiManager.UpdateStableBuildsCacheAsWritten | source/modules/bl_api_manager.py:34-67 | as written: a bundled or cached file that is not JSON raises; an unreadable bundled or cached file gives no write; with no cached file or a missing version the data is written; otherwise the cache is rewritten exactly when the cached version sorts before the new one as text |
| BlApiManager.TenthReleaseNotWritten | source/modules/bl_api_manager.py:53-55 | cached `"9.0"` compares greater than new `"10.0"`, so version 10.0 is never written |
| BlApiManager.ApiMajorOfScriptVersion | scripts/update_cache_api.py:34-41 | the version the release script writes, `"n.0"`, has major number `n` |
| BlApiManager.UpdateStableBuildsCache | source/modules/bl_api_manager.py:34-67 | as intended: a bundled or cached file that is not JSON raises; an unreadable bundled or cached file gives no write; with no cached file or a missing version the data is written; otherwise the cache is rewritten exactly when the cached major number is smaller, or equal with the text before |
| BlApiManager.WrittenExactlyWhenNewer | source/modules/bl_api_manager.py:50-57 | with script-written versions `m` cached and `n` new, the cache is rewritten exactly when `m < n` and kept exactly when `n <= m` |
| BlendfileReader.Read | source/modules/blendfile_reader.py:48 | `read(n)` gives the first `n` bytes, or all of a shorter stream |
| BlendfileReader.ParseHeaderVersion | source/modules/blendfile_reader.py:33-40 | the version is byte 9 as major and bytes 10 and 11 as a two-digit minor, with patch 0; a short header or a negative part raises |
| BlendfileReader.ParseHeader | source/modules/blendfile_reader.py:33-40 | a header Blender writes reads back as its version, for every one-digit major and two-digit minor |
| BlendfileReader.ParseHeaderPrefix | source/modules/blendfile_reader.py:33-40 | bytes after the twelfth do not change the version |
| BlendfileReader.TryReadBasic | source/modules/blendfile_reader.py:43-49 | the first 12 bytes exactly when the file starts with `BLENDER` or `BULLETf` |
| BlendfileReader.TryReadWith | source/modules/blendfile_reader.py:52-63 | the first 12 decompressed bytes exactly when the decompressor accepts the file |
| BlendfileReader.GetBlendfileHeader | source/modules/blendfile_reader.py:66-84 | the first reader that succeeds, in the order uncompressed, gzip, zstd, decides the compression, and the header is its first 12 bytes |
| BlendfileReader.ReadBlendfileHeader | source/modules/blendfile_reader.py:87-96 | raises when no reader succeeds; otherwise the header's version with the compression found |
| BlendfileReader.ReadUncompressed | source/modules/blendfile_reader.py:66-96 | an uncompressed file Blender wrote reads as its version, uncompressed |
| BlendfileReader.ReadCompressed | source/modules/blendfile_reader.py:66-96 | a compressed Blender file reads as its version, with the first decompressor that accepts it |
| Extractor.DispatchAsWritten | source/threads/extractor.py:14-59 | as written, dispatch raises IndexError exactly for no suffix, or one suffix that is not `.zip` |
| Extractor.SingleSuffixImageRaises | source/threads/extractor.py:29 | `Blender.dmg` has the single suffix `.dmg`, so `suffixes[-2]` raises IndexError, where the intended dispatch selects the disk image |
| Extractor.Dispatch | source/threads/extractor.py:14-59 | a last `.zip` is zip, else a second-to-last `.tar` is tar, else a last `.dmg` is a disk image, else nothing |
| Extractor.DispatchAgrees | source/threads/extractor.py:14-59 | wherever the code as written does not raise it agrees with the intended dispatch, and with two or more suffixes it never raises |
| Extractor.TotalSizeMonotone | source/threads/extractor.py:19-26 | the size of a longer prefix of the members is at least that of a shorter one |
| Extractor.ReportsGrowToTotal | source/threads/extractor.py:20-26 | the reports never decrease, never exceed the total, and the last one is the total out of the total |
| Extractor.ExtractMembers | source/threads/extractor.py:21-26 | the loop reports the running size after each member |
| Extractor.AppName | source/threads/extractor.py:50-53 | `Bforartists` exactly when the lower-cased stem mentions it, else `Blender` |
| Extractor.ExtractAsWritten | source/threads/extractor.py:12-59 | as written: after reporting (0, 0) it raises IndexError for a name with no suffix, or with one suffix other than `.zip`; otherwise the progress reports and result of the kind selected, including IndexError on an empty archive |
| Extractor.Extract | source/threads/extractor.py:12-59 | with the intended dispatch: the progress reports and result of each archive kind, including IndexError on an empty archive; a single-suffix `.dmg` is extracted to `destination/stem` |
| Extractor.ExtractionProgress | source/threads/extractor.py:13-26 | progress starts at (0, 0), never decreases, and ends at the total |
| Extractor.FinishedSignals | source/threads/extractor.py:70-73 | `finished` is sent once, with the folder, exactly when `extract` returns one |
| LibraryDrawer.BlenderExe | source/threads/library_drawer.py:33-37 | the executable's path for each platform, `blender` for any other |
| LibraryDrawer.BuildsInSound | source/threads/library_drawer.py:42-47 | each build reported from a folder is a directory listed there, marked recognized exactly when it is |
| LibraryDrawer.BuildsInComplete | source/threads/library_drawer.py:42-47 | every listed directory is reported, with its recognition |
| LibraryDrawer.ScanInOrder | source/threads/library_drawer.py:39-47 | folders are scanned one after another, in order |
| LibraryDrawer.GetBlenderBuildsSound | source/threads/library_drawer.py:39-47 | every build reported lies directly inside a scanned folder that is a directory, and its recognition is right |
| LibraryDrawer.GetBlenderBuildsComplete | source/threads/library_drawer.py:39-47 | every directory inside a scanned folder is reported |
| LibraryDrawer.MissingFolderSkipped | source/threads/library_drawer.py:41 | a folder that is not a directory contributes nothing |
| LibraryDrawer.Announce | source/threads/library_drawer.py:59-62 | `found` for a recognized build, `unrecognized` otherwise, carrying the build |
| LibraryDrawer.Run | source/threads/library_drawer.py:57-64 | one event per build, in scan order, then one `finished` |
| Renamer.Slug | source/threads/renamer.py:18 | each character is lower-cased, and a space becomes `-` |
| Renamer.SlugIsFixed | source/threads/renamer.py:18 | a slug has no space, and slugging it again changes nothing |
| Renamer.TargetIsSibling | source/threads/renamer.py:18 | a one-component slug names a folder beside the source |
| Renamer.EmptyNameTargetsParent | source/threads/renamer.py:18 | an empty name targets the source's parent itself |
| Renamer.Run | source/threads/renamer.py:16-23 | on success one `finished` with the target; on OSError one `failure`, and the error is raised again |
| LibraryWidget.VersionPrefixOfVersion | source/widgets/library_widget.py:538 | the prefix of a `major.minor.patch` spelling is `major.minor` |
| LibraryWidget.ConfigPath | source/widgets/library_widget.py:540-545 | `portable` inside the build, or `<prefix>/config` |
| LibraryWidget.MakePortablePathAsWritten | source/widgets/library_widget.py:537-547 | as written, the prefix is compared with `"4.2"` as text |
| LibraryWidget.TenPointZeroNotPortable | source/widgets/library_widget.py:540 | Blender 10.0 gets the old `10.0/config` layout |
| LibraryWidget.MakePortablePath | source/widgets/library_widget.py:537-547 | as intended, the prefix is compared with 4.2 by number |
| LibraryWidget.PortableFromFourPointTwo | source/widgets/library_widget.py:537-547 | `portable` exactly from 4.2 on, else `major.minor/config` |
| LibraryWidget.AsWrittenAgreesBeforeTen | source/widgets/library_widget.py:540 | text order and number order agree for every one-digit major and minor |
| LibraryWidget.SingleDigitPrefixOrder | source/widgets/library_widget.py:540 | a one-digit `major.minor` sorts before `"4.2"` as text exactly when it is before 4.2 |
| LibraryWidget.DeleteActionText | source/widgets/library_widget.py:355-362 | `Delete from Drive` exactly when one of "default is delete" and shift holds, else `Send to Trash` |
| LibraryWidget.AskRemoveFromDrive | source/widgets/library_widget.py:587-595 | the delete question is asked exactly when one of the two holds |
| LibraryWidget.LabelMatchesQuestion | source/widgets/library_widget.py:587-595 | the label says `Delete from Drive` exactly when the delete question is asked |
| LibraryWidget.RemoveItem | source/widgets/base_list_widget.py:46-50 | `remove_item` raises KeyError exactly when the list does not hold the entry (`self.widgets.remove` runs first); otherwise it takes out one occurrence and keeps the rest |
| LibraryWidget.RemoveFirst | source/widgets/base_list_widget.py:48-49 | the row taken out is one occurrence of the entry: one fewer item, and every other entry as often as before |
| LibraryWidget.RemovedEntryLeaves | source/widgets/base_list_widget.py:46-50 | an entry listed once is gone after removal, and every other entry stays |
| LibraryWidget.LibraryEntry.constructor | source/widgets/library_widget.py:63-112 | a new entry of the library list is disabled, has a blank button and is not the quick-launch entry |
| LibraryWidget.LibraryEntry.Draw | source/widgets/library_widget.py:136-331 | a drawn entry is enabled and says `Launch`, its portability labels follow its configuration folder, and it becomes the quick-launch entry exactly when it is a new build whose branch `get_mark_as_favorite` marks, or an older build whose link is the saved favourite path; the page's favourite is then this entry and a previous favourite with another link loses only its mark; otherwise the page's favourite stays |
| LibraryWidget.LibraryEntry.MakePortable | source/widgets/library_widget.py:520-535 | portability flips, an existing folder is parked, and the labels follow |
| LibraryWidget.LibraryEntry.RemoverStarted | source/widgets/library_widget.py:656-662 | the entry is disabled and says `Deleting`, and nothing else about it changes |
| LibraryWidget.LibraryEntry.RemoverCompleted | source/widgets/library_widget.py:664-678 | code 0 removes the entry from its list and leaves the entry as it was, raising KeyError with the list untouched when the list does not hold it; any other code keeps the list and makes the entry enabled and `Launch` again, changing nothing else |
| LibraryWidget.LibraryEntry.RemoveFromQuickLaunch | source/widgets/library_widget.py:713-724 | the entry loses its quick-launch mark, and nothing else about it changes |
| LibraryWidget.LibraryEntry.AddToQuickLaunch | source/widgets/library_widget.py:693-710 | the entry becomes the favourite and the saved path and gains its mark, nothing else about it changing; a previous favourite with another link loses only its mark, and one with the same link is untouched |
| RepoVisibilityView.RepoUserView.constructor | source/widgets/repo_visibility_view.py:20-68 | the boxes start as given, a `None` state starts unchecked and disabled, and nothing is emitted |
| RepoVisibilityView.RepoUserView.SetLibrary | source/widgets/repo_visibility_view.py:88-92 | checking or clearing the library box updates the title, saves or restores a bound download, and emits the changes |
| RepoVisibilityView.RepoUserView.LibraryButtonToggled | source/widgets/repo_visibility_view.py:88-92 | the library slot's whole effect, ending with `library_changed` |
| RepoVisibilityView.RepoUserView.LibraryBoundToggle | source/widgets/repo_visibility_view.py:100-105 | clearing saves and clears the download; checking restores the saved one |
| RepoVisibilityView.RepoUserView.SetDownload | source/widgets/repo_visibility_view.py:94-98 | checking the download of a hidden repository shows it; the last signal carries the new state |
| RepoVisibilityView.RepoUserView.DownloadButtonToggled | source/widgets/repo_visibility_view.py:94-98 | the download slot's whole effect, ending with `download_changed` |
| RepoVisibilityView.RepoUserView.DownloadToggled | source/widgets/repo_visibility_view.py:111-113 | a row follows its button group's state when that differs from its own |
| RepoVisibilityView.TurnOnSignals | source/widgets/repo_visibility_view.py:94-105 | the signals sent when checking a download shows the repository, ending in a checked download |
| RepoGroups.RepoGroup.constructor | source/widgets/repo_group.py:27-66 | four rows from the settings; with both automated repositories hidden their downloads end cleared and disabled, otherwise both download boxes are enabled |
| RepoGroups.RepoGroup.CheckIfBothAutomatedAreDisabled | source/widgets/repo_group.py:82-90 | both hidden clears both downloads and disables both boxes; either shown with the download off enables both; visibility never changes |
| RepoGroups.RepoGroup.AutomatedDownloadToggled | source/widgets/repo_group.py:58-64 | both automated download boxes end in the same state, and visibility only ever turns on |
| RepoGroups.RepoGroup.ToggleLibrary | source/widgets/repo_group.py:58-59 | a click on a library box and its effect through the group, which keeps the download boxes equal |
| RepoGroups.RepoGroup.ToggleDownload | source/widgets/repo_group.py:61-64 | a click on a download box: both automated downloads follow, and a checked hidden row is shown |
| StringUtils.SplitLines | source/modules/string_utils.py:23 | `splitlines` gives break-free lines, and none exactly for the empty text |
| StringUtils.SplitJoinedLines | source/modules/string_utils.py:23-27 | splitting joined lines gives the lines back when the last is not empty |
| StringUtils.JoinSplitLines | source/modules/string_utils.py:23-27 | joining the lines of a newline-separated text without a final newline gives the text back |
| StringUtils.Bullet | source/modules/string_utils.py:25-26 | a list item gets ` •` after its marker; any other line stays as it is |
| StringUtils.BulletInjective | source/modules/string_utils.py:25-26 | no two lines get the same bulleted form |
| StringUtils.AddBulletPoint | source/modules/string_utils.py:22-27 | the loop computes the bulleted text |
| StringUtils.BulletTextLines | source/modules/string_utils.py:22-27 | the result's lines are the text's lines, each bulleted in place |
| StringUtils.TrailingBlankLineDropped | source/modules/string_utils.py:22-27 | a trailing blank line does not survive |
| StringUtils.CollapseColonBlank | source/modules/string_utils.py:33 | the substitution never lengthens the text |
| StringUtils.CollapseRemovesOnlyNewlines | source/modules/string_utils.py:33 | only newlines are removed |
| StringUtils.CollapseWithoutMatch | source/modules/string_utils.py:33 | text without `":\n\n"` is unchanged |
| StringUtils.OnePass | source/modules/string_utils.py:33 | a single pass: `":\n\n\n"` becomes `":\n\n"` |
| StringUtils.DropHeading | source/modules/string_utils.py:34-36 | no lines raises IndexError; the first line goes exactly when it starts with the heading |
| StringUtils.PatchNoteCleaner | source/modules/string_utils.py:30-37 | bullet, convert, collapse, drop the heading and join; raises exactly when nothing is left to split |

## Left out

- Threads, `QThread.msleep` and cross-thread signals are left out. A worker's polling loop is
  one `TaskQueue.WorkerStep` per pass. `fullstop` is modelled only by its effect, the worker's
  `finished` (`TaskQueue.Finished`). The `on_spawn` hook is not modelled, and a `Task`'s own
  `run` is reduced to whether it raises.
- Tasks.TaskQueue.constructor: `maxlen` is a natural number, and 0 stands for both `None`
  and 0. The source treats both as unbounded (`if maxlen:`).
- File-system calls are not executed. Reading, renaming, mounting and copying are replaced
  by their inputs: a file's contents, whether a folder is a directory, or whether a rename
  raised. `LibraryWidget.LibraryEntry.MakePortable` assumes the rename or `mkdir` succeeds.
- `json.load`, `datetime.fromisoformat`, `isoformat` and `str` of a datetime are passed in
  as functions. Only their round trips are assumed, through `DateTimes.Codec.Valid`.
  `BuildInfo` and its `to_dict`/`from_dict` are type parameters with a codec.
- The gzip and zstd libraries are passed in as decompressor functions.
- BlendfileReader.TryReadWith: every failure of a decompressor gives `None`. The source catches
  only `gzip.BadGzipFile` and `zstandard.ZstdError`; a truncated stream (`EOFError`) or a
  `zlib.error` propagates instead. Either way the read ends in an exception, but its type differs.
- BlApiManager.Decide: `config_path.mkdir` and writing the new cache file are not modelled,
  and neither is their OSError, which is caught. A cached document that is not a dictionary
  (a TypeError) is not modelled either.
- `markdown_to_text` (markdown, regex and BeautifulSoup) is a function parameter.
- `read_bl_api`'s choice between the user's and the bundled API file, and its cache, are
  left out; the API dictionary is an input.
- `Text.Lower` lower-cases ASCII letters only, and the regex classes `\d` and `\w` (and
  `isnumeric`) cover ASCII digits and letters only. Unicode case mapping and Unicode digits
  and letters are not modelled; `\s` does cover Unicode whitespace.
- Paths are POSIX component lists. Windows drive letters and backslashes are left out.
- Widget visuals are left out: icons, menus, dialogs, tool tips, layouts, the selection
  flags of a list item, and `total_height`.
- The parent/child twin entries of the favourites list are not part of this model.
  `LibraryWidget.LibraryEntry.RemoverCompleted` and `AddToQuickLaunch` do not forward to a
  twin entry, and `draw_from_cashed` is not modelled.
- LibraryWidget.LibraryEntry.Draw: models `draw` for an entry of the library list. The
  settings `get_mark_as_favorite` and `get_favorite_path` are parameters or fields of the page.
  Reading the build's `.blinfo` file, the damaged-build path and `add_to_favorites` are not
  modelled.
- Semver.ParseToString: `semver.Version` is modelled as its `major.minor.patch` triple.
  Pre-release and build metadata, which `full_semversion` carries, are left out of
  `Version`, `parse` and `str`.
- `add_library_to_group` and `__library_toggled` are not modelled. Nothing in the repository
  calls `add_library_to_group`, so `__library_toggled` is never connected.
- `DateTimes.Time` is an integer instant, so naive datetimes, and comparing them with aware
  ones, are left out.
- VersionMatcher.KeyLess: orders numbers before strings. Python refuses to compare a
  number with a string within one field, but all builds give the same kind of key for a
  field, so the order between kinds is never used.

## Findings

| source | as written | input that shows it | evidently intended | confidence | as-written member | corrected member |
|---|---|---|---|---|---|---|
| source/modules/version_matcher.py:241 | `max(...)` and `min(...)` over the candidates raise ValueError when there are none | `BInfoMatcher(()).match(VersionSearchQuery.default())` | no builds give the empty match `()`, as the `if not versions: return ()` check implies | high; not executed | VersionMatcher.AsWrittenRaisesWithoutBuilds | VersionMatcher.NoBuildsNoMatch |
| source/threads/extractor.py:29 | `suffixes[-2]` is read before `.dmg` is checked, raising IndexError for a name with one suffix | `Blender.dmg` (suffixes `[".dmg"]`) | a single-suffix disk image is mounted | high; not executed | Extractor.SingleSuffixImageRaises | Extractor.DispatchAgrees |
| source/modules/bl_api_manager.py:53 | `api_file_version` values are compared as strings | cached `"9.0"`, new `"10.0"`: `"9.0" > "10.0"`, so the new cache is never written | a newer release's cache replaces an older one | medium; not executed | BlApiManager.TenthReleaseNotWritten | BlApiManager.WrittenExactlyWhenNewer |
| source/widgets/library_widget.py:540 | the version prefix is compared with `"4.2"` as a string | subversion `"10.0.0"`: `"10.0" < "4.2"`, so it gets `10.0/config` | builds from 4.2 on, including 10.x, use the `portable` folder | medium; not executed | LibraryWidget.TenPointZeroNotPortable | LibraryWidget.PortableFromFourPointTwo |
| source/modules/tasks.py:51 | `remake_worker` re-spawns with the `start` it captured, False for every worker the queue makes (tasks.py:34), and nothing starts the replacement later | a worker that `fullstop` ends after `start()` | the replacement runs, so the pool keeps its running workers | medium; not executed | Tasks.TaskQueue.Finished | Tasks.TaskQueue.FinishedRestarting |
| source/modules/version_matcher.py:277-282 | the test query `("^", "^", "*")` keeps the default commit time `^` | the three 4.3 builds of the test | the test's expectation of all three builds, which commit time `*` gives | low; not executed | VersionMatcher.MatchLatestMinor | VersionMatcher.MatchLatestMinorAnyTime |
