# uniapp-app-build SDK pipeline, modelled in Dafny

This project models the core of the uniapp-app-build tooling: the part that
turns staged uni-app SDK archives into a normalized SDK tree, and the part
that reads Android build settings out of a built app's `manifest.json`.

- **Directory probe** (`path_probe.dfy`, sdk/_common/path.ts). `isDirectoryEmpty`
  and `isDirectoryEmptySync` work over the outcome of a directory read: a
  listing or a read error.
- **Filesystem** (`fs_tree.dfy`). An abstract tree `Node = File | Dir(map)` is
  held in the mutable `FileSystem` object. It carries the Node calls the core
  makes: `existsSync`, `lstatSync().isDirectory()`, `readdirSync`,
  `mkdirSync({recursive})`, `createWriteStream`, `rmSync` and `unlinkSync`.
  `path.join` is `Resolve`, working on path segments.
- **Extraction** (`zip.dfy`, `unzipFile` in sdk/_common/zip.ts). The steps are:
  - filter the entries by substring;
  - collect the top-level names and decide whether to strip;
  - compute the total size;
  - create the output and entry directories, then open the entry files;
  - count the chunk bytes on a counter class.

  `UnzipFile` is a method on the filesystem, proved equal to the ghost
  specification `UnzipSpec`. The lemmas around it state the promises about
  filtering, stripping, totals, rejection and resolution.
- **Staged archive names** (`sdk_names.dfy`). These cover the candidate test and
  the `<platform>-SDK@<version>.zip` split, with a round trip.
- **Ingestion and normalization** (`sdk_process.dfy`, `sdk_normalize.dfy`,
  `ProcessSDK` in sdk/process/index.ts).
  - `init` is a loop over the staging listing. Each turn is one step of the
    ghost fold `IngestAll`.
  - `check_version_dir` is proved against `CheckVersionDirSpec`.
  - `process_sdk` is nested loops over the tree. They are proved to produce
    `NormalizeAt`, the pure normalization on which the visiting, "nothing
    else changes" and re-run lemmas are stated.
- **Earlier `ProcessSDK` copy** (`legacy_sdk.dfy`, sdk/processSDK.ts). Its own
  class runs the same shared steps, so it meets the same specification
  functions.
- **Android manifest projection** (`android.dfy`, sdk/process/android.ts).
  - `ProcessAndroid` is a class whose `init*` methods overwrite the declared
    defaults.
  - The values those methods compute are pure functions: the version split
    and `parseInt`, the truthy fallbacks, the icon values, and a scanner for
    the `android:name="…"` pattern. Lemmas are stated about them.

Inputs the core reads from outside are parameters of the model:
- the contents of staged files (their md5 digest and what the archive reader
  finds in them) are a function `staged: string -> StagedFile`;
- an archive's entries are values that carry their chunk lengths;
- the manifest is an already-decoded `Manifest` value, or `None` when the
  file does not exist.

Three behaviours of the code are easy to misread from its declarations and
comments; the model follows what the code does:
- **`init` failures** (sdk/process/index.ts:34-66). The loop body has no
  try/catch, and each extraction is awaited inside it. So:
  - a rejected `mkdirSync` or extraction rejects `init` itself
    (`InitStatus.Aborted`);
  - an extraction that never resolves leaves `init` waiting for ever
    (`Stalled`).

  Either way no later staged name is looked at (`HaltedStaysHalted`).
- **Version without a name** (sdk/process/android.ts:40, 137). The field is
  declared as a three-number tuple with default `[0, 0, 0]`. But line 137
  assigns the result of `version?.name?.split(".").map((v) => parseInt(v))` with a
  type cast. Without a name that result is `undefined` (`AppVersion` returns
  `None`), and a present name gives as many numbers as it has segments.
- **Re-running the normalization** (sdk/process/index.ts:123-126). The
  comment there says a version folder listing `libs` has already been
  processed, which suggests that a second pass changes nothing. A second pass
  changes nothing exactly when every version folder the first pass visits
  comes out settled: listing `libs`, empty, or holding only an `SDK` file
  (`Settled`):
  - `VersionRerun`, `PlatformRerun` and `RootRerun` prove this
    if-and-only-if for one version folder, one platform folder and the root;
  - `RerunNotIdempotent` exhibits a folder that a second pass empties;
  - `EmptiedIsSettled` exhibits a folder without `libs` that a second pass
    leaves alone.

## Model

| member | source | states |
|---|---|---|
| Strings.JoinSplit | sdk/_common/zip.ts:86 | joining the pieces of `split` with the same separator gives the string back |
| Strings.SplitPiecesFree | sdk/_common/zip.ts:48 | no piece produced by `split` contains the separator |
| Strings.SplitTwoPieces | sdk/process/index.ts:49-51 | when the separator occurs, `split` gives at least two pieces, and the string is piece 0, the separator and piece 1, then either the end or another separator |
| Strings.SplitJoin | sdk/process/android.ts:137 | for a one-character separator, splitting joined pieces that do not contain it gives back exactly those pieces |
| Strings.ToLower | sdk/process/index.ts:45-47 | lower-casing keeps the length and maps every character on its own |
| PathProbe.Unignored | sdk/_common/path.ts:29 | a name is kept iff it is listed and not among the ignored names; never more names than listed |
| PathProbe.IsDirectoryEmptySync | sdk/_common/path.ts:21-37 | "empty" iff the read succeeded and every listed name is ignored; a read error answers "not empty" |
| PathProbe.IsDirectoryEmpty | sdk/_common/path.ts:3-19 | the callback gets an error iff the read failed, with that error; otherwise it gets the same boolean as the sync form |
| PathProbe.IgnoredNamesIrrelevant | sdk/_common/path.ts:29 | inserting ignored names anywhere in a listing never changes the answer |
| PathProbe.EmptyListingAndDefaultIgnore | sdk/_common/path.ts:21-32 | an empty listing is empty for any ignore list; with the default empty ignore list, "empty" iff the listing has no names |
| PathProbe.ReadErrorIsNotEmpty | sdk/_common/path.ts:33-36 | a failed read is "not empty" for the sync form and an error for the callback form |
| FsTree.ResolvePlain | sdk/process/index.ts:75-79 | `path.join` of names other than "", "." and ".." appends them to the base |
| FsTree.MkdirMakesDir | sdk/process/index.ts:85 | after a successful `mkdirSync(recursive)` the path is a directory |
| FsTree.MkdirExisting | sdk/process/index.ts:85 | `mkdirSync(recursive)` of an existing directory changes nothing |
| FsTree.MkdirFresh | sdk/_common/zip.ts:33-35 | `mkdirSync(recursive)` of a missing path leaves an empty directory there |
| FsTree.CreateFileMakesFile | sdk/_common/zip.ts:97 | opening a path for writing leaves a file there |
| FsTree.MkdirKeepsDirs | sdk/_common/zip.ts:94 | a successful `mkdirSync(recursive)` leaves every directory that was already there a directory |
| FsTree.MkdirKeepsFiles | sdk/_common/zip.ts:94 | a successful `mkdirSync(recursive)` leaves every file that was already there a file |
| FsTree.CreateFileKeepsDirs | sdk/_common/zip.ts:97 | opening a file for writing leaves every existing directory a directory |
| FsTree.CreateFileKeepsFiles | sdk/_common/zip.ts:97 | opening a file for writing leaves every existing file a file, the opened one included |
| FsTree.FileSystem.Exists | sdk/_common/zip.ts:28 | true iff something is at the path |
| FsTree.FileSystem.IsDirectory | sdk/process/index.ts:112 | true iff the existing path is a directory |
| FsTree.FileSystem.ReadDir | sdk/process/index.ts:121 | a listing iff the path is a directory, and then every child name exactly once; a read error otherwise |
| FsTree.FileSystem.Mkdir | sdk/_common/zip.ts:34 | the tree becomes the recursive mkdir of the old tree, or stays unchanged when that fails (ok false) |
| FsTree.FileSystem.OpenForWrite | sdk/_common/zip.ts:97 | the file is created or truncated; the parent must be a directory and the path must not be one |
| FsTree.FileSystem.Remove | sdk/process/index.ts:131-136 | exactly the named child of the parent folder is gone; the rest of the tree is unchanged |
| Zip.KeepEntries | sdk/_common/zip.ts:41-43 | an entry is kept iff it is in the archive and no ignore string is a substring of its name |
| Zip.KeepConcat | sdk/_common/zip.ts:41-43 | filtering keeps the order of `Object.values(entries)`: it distributes over concatenation |
| Zip.TopLevelSplit | sdk/_common/zip.ts:48 | the top-level name has no "/"; a name without "/" is its own top level and strips to ""; otherwise name = top level + "/" + stripped name |
| Zip.CollectTopLevelDirs | sdk/_common/zip.ts:46-50 | the set built is exactly the set of the kept entries' top-level names |
| Zip.DecideStrip | sdk/_common/zip.ts:53-64 | the decision equals `ShouldStrip` of the set, the policy and the output basename |
| Zip.ShouldStrip | sdk/_common/zip.ts:53-64 | strip iff there is exactly one top-level name and the policy is "always", or "auto" with that name equal to the output basename; the cases are spelled out by `Zip.StripDecision` |
| Zip.StripDecision | sdk/_common/zip.ts:53-64 | "always" strips iff there is one top-level name, "auto" iff the set is exactly {basename of outputDir}, false never |
| Zip.EntryName | sdk/_common/zip.ts:83-87 | the entry's name, or its name without the top-level folder when stripping; `Zip.TopLevelSplit` proves name = top level + "/" + stripped name |
| Zip.EntryPath | sdk/_common/zip.ts:89 | `path.join` of the output directory and the entry name split at "/"; for plain names `FsTree.ResolvePlain` appends them |
| Zip.TotalSize | sdk/_common/zip.ts:67-70 | the sum of the kept entries' sizes; `Zip.TotalSizeConcat`, `Zip.IgnoredEntryNotCounted` and `Zip.KeptEntryCounted` state its properties |
| Zip.TotalSizeConcat | sdk/_common/zip.ts:67-70 | the total of two runs of entries is the sum of their totals |
| Zip.IgnoredEntryNotCounted | sdk/_common/zip.ts:67-70 | an ignored entry adds nothing to the total, wherever it stands |
| Zip.KeptEntryCounted | sdk/_common/zip.ts:67-70 | a kept entry adds exactly its size to the total |
| Zip.RunningConcat | sdk/_common/zip.ts:102-103 | counting two runs of chunks is counting the first, then the second from where the first ended |
| Zip.RunningMonotone | sdk/_common/zip.ts:102-103 | the counter never decreases, never falls below its start, and ends at the start plus every chunk length |
| Zip.ReachesConcat | sdk/_common/zip.ts:108 | some reported value reaches the total iff one in either part does |
| Zip.ByteCounter.constructor | sdk/_common/zip.ts:73-79 | the bar starts at 0 with the kept entries' total |
| Zip.ByteCounter.Tick | sdk/_common/zip.ts:103 | `tick(len)` adds exactly len to the counter |
| Zip.FeedChunks | sdk/_common/zip.ts:102-117 | the counter grows by the sum of the chunks; the reported values are the running counts; `reached` iff one of them is at least the total |
| Zip.FeedStep | sdk/_common/zip.ts:102-117 | one more chunk adds itself to the sum, appends one counter value, and the bar is reached iff it was or that value reaches the total |
| Zip.PrepareOutput | sdk/_common/zip.ts:32-35 | an existing output path is left alone; a missing one is created as an empty directory, or the step fails |
| Zip.UnzipFile | sdk/_common/zip.ts:15-133 | the settled outcome and the new tree are exactly `UnzipSpec` of the old tree |
| Zip.CreateDirectories | sdk/_common/zip.ts:82-94 | every kept directory entry is created in order; failure iff one `mkdirSync` threw; on success each kept directory entry is a directory at its entry path |
| Zip.StreamFiles | sdk/_common/zip.ts:95-120 | every kept file entry is opened in order; progress is the running count over all chunks; resolved iff some count reached the total; on success each kept file entry is a file at its entry path and every directory that existed before still does |
| Zip.StreamEntry | sdk/_common/zip.ts:93-120 | a directory entry changes nothing here; a file entry is opened and its chunks are counted |
| Zip.StreamNext | sdk/_common/zip.ts:93-120 | one more kept entry extends the opened files, the counter and the progress exactly as the specification over the longer prefix says |
| Zip.MakeDirsEffect | sdk/_common/zip.ts:82-94 | when no `mkdirSync` failed, every directory entry of the run is a directory at its entry path afterwards, the later calls undoing none of the earlier ones |
| Zip.OpenFilesEffect | sdk/_common/zip.ts:95-97 | when no file failed to open, every file entry of the run is a file at its entry path afterwards, and every directory that existed before still does |
| Zip.UnzipCreatesEntries | sdk/_common/zip.ts:82-120 | after a successful extraction every kept directory entry is a directory and every kept file entry is a file at its entry path, under the strip decision of the kept entries |
| Zip.MissingArchiveRejected | sdk/_common/zip.ts:27-30 | a missing archive is rejected and the tree is untouched |
| Zip.NoChunkNeverResolves | sdk/_common/zip.ts:93-117 | when no kept file delivers a chunk, a settled extraction never resolves, even with a zero total |
| Zip.DirectoriesHaveNoChunks | sdk/_common/zip.ts:93-94 | directory entries deliver no chunks |
| Zip.AllDirectoriesNeverResolve | sdk/_common/zip.ts:93-117 | an archive whose kept entries are all directories never resolves |
| Zip.WellFormedChunksMatchTotal | sdk/_common/zip.ts:67-70 | for a faithful archive, the chunks add up to the total size and are all positive |
| Zip.RunningStrict | sdk/_common/zip.ts:102-108 | with positive chunks, every count before the last is below the final count |
| Zip.WellFormedResolvesAtEnd | sdk/_common/zip.ts:102-116 | for a faithful archive with bytes to write, the counter reaches the total exactly at the last chunk and never passes it |
| SdkNames.IsCandidate | sdk/process/index.ts:42-48 | a name is a candidate iff it is not skipped, contains "-SDK@" and ends with ".zip" in any letter case; `SdkNames.ParseRoundTrip` states it on spelled names |
| SdkNames.Stem | sdk/process/index.ts:49-50 | the name without its last four characters; `SdkNames.StemKeepsIdentity` proves the cut never reaches "-SDK@" |
| SdkNames.StemKeepsIdentity | sdk/process/index.ts:49-51 | cutting the last four characters of a candidate never cuts into its "-SDK@" |
| SdkNames.Parse | sdk/process/index.ts:49-51 | neither part contains "-SDK@"; the stem is platform + "-SDK@" + version, then either the end or another "-SDK@" |
| SdkNames.ParseRoundTrip | sdk/process/index.ts:42-51 | `p + "-SDK@" + v + ext` with ext ".zip" in any case is a candidate iff not skipped, and parses back to (p, v) |
| SdkNames.ParseExample | sdk/process/index.ts:42-51 | "android-SDK@3.2.1.ZIP" is a candidate for platform "android" and version "3.2.1" |
| SdkNormalize.NormalizeVersion | sdk/process/index.ts:118-140 | a version folder listing "libs" in any case is kept; any other is pruned to its "SDK" entry and lifted; `SdkNormalize.VersionOutcome` spells out the outcomes |
| SdkNormalize.NormalizePlatform | sdk/process/index.ts:110-141 | every non-skipped entry of a platform folder is normalized as a version, the rest kept; `SdkNormalize.VisitedVersionNormalized` and `SdkNormalize.PlatformRerun` state its properties |
| SdkNormalize.ListsLibsIsDone | sdk/process/index.ts:124 | the listing test for "libs" in any case agrees with the folder's names |
| SdkNormalize.PruneToSdk | sdk/process/index.ts:128-138 | only the entry named exactly "SDK" survives, unchanged |
| SdkNormalize.NormalizeAt | sdk/process/index.ts:92-145 | defined iff the SDK root is a directory, and it stays one |
| SdkNormalize.VersionOutcome | sdk/process/index.ts:120-140 | a folder listing "libs" is unchanged; otherwise it becomes its SDK folder's contents, or just its SDK file, or empty without SDK |
| SdkNormalize.VisitedVersionNormalized | sdk/process/index.ts:97-141 | every version folder under a visited platform is normalized in place |
| SdkNormalize.OutsideSdkRootUnchanged | sdk/process/index.ts:92-145 | paths neither below nor above the SDK root are unchanged |
| SdkNormalize.UnvisitedEntriesUnchanged | sdk/process/index.ts:97-115 | non-platform and skipped entries of the root, and skipped versions, are unchanged |
| SdkNormalize.VersionFixedPoint | sdk/process/index.ts:118-140 | a version folder is left unchanged by a visit iff it is a file, lists "libs", or holds at most an `SDK` file |
| SdkNormalize.VersionRerun | sdk/process/index.ts:118-140 | a second visit changes nothing iff the first left a file, a folder listing "libs", an empty folder, or a folder holding only an `SDK` file |
| SdkNormalize.RerunNotIdempotent | sdk/process/index.ts:123-140 | an SDK folder holding "lib" rather than "libs" is lifted on the first pass and emptied on the second |
| SdkNormalize.EmptiedIsSettled | sdk/process/index.ts:128-140 | a folder with no `SDK` entry is emptied by the first visit and left alone by the second, without listing "libs" |
| SdkNormalize.RootRerun | sdk/process/index.ts:97-141 | a second pass over the root changes nothing iff every version folder visited by the first comes out settled |
| SdkNormalize.PlatformRerun | sdk/process/index.ts:113-141 | the same if-and-only-if for one platform folder |
| SdkNormalize.LibsScenario | sdk/process/index.ts:121-140 | SDK/libs/foo.so beside other files becomes libs/foo.so, and stays so on a second pass |
| SdkProcess.TargetPathPlain | sdk/process/index.ts:75-79 | for plain names, the target is root/platform/version |
| SdkProcess.Populated | sdk/process/index.ts:81-83 | the target exists and is a file or a folder holding a name outside the skips; `SdkProcess.ProbeAgrees` ties it to the emptiness probe |
| SdkProcess.CheckVersionDirSpec | sdk/process/index.ts:74-90 | a populated target is reported present with nothing changed; otherwise it is created recursively, or the call fails; `SdkProcess.CheckVersionDirOutcome` proves this |
| SdkProcess.CheckVersionDirOutcome | sdk/process/index.ts:81-89 | the answer's path is always the target; "exists" iff populated modulo skips, and then nothing changes; otherwise the target is a directory afterwards, or mkdir failed and nothing changed |
| SdkProcess.ProbeAgrees | sdk/process/index.ts:81-83 | the emptiness probe on the folder's listing is the negation of `Populated` |
| SdkProcess.IngestStep | sdk/process/index.ts:42-62 | one turn of the loop over the staging listing; `SdkProcess.IngestStepEffect` and `SdkProcess.HaltedStaysHalted` state what it changes |
| SdkProcess.IngestStepEffect | sdk/process/index.ts:42-62 | non-candidates and populated targets change nothing; a record is appended only for an unpopulated target whose extraction resolved |
| SdkProcess.HaltedStaysHalted | sdk/process/index.ts:39-65 | after a rejection or a stall, the rest of the listing changes nothing |
| SdkProcess.RecordsFromCandidates | sdk/process/index.ts:37-65 | records only grow at the end; each new one is a listed candidate with its parsed platform and version, digest and staged path |
| SdkProcess.Filter | sdk/process/index.ts:97-115 | a name is kept iff it is listed and passes the test |
| SdkProcess.MoveContentsUp | sdk/process/index.ts:140 | the folder is replaced by the lift of its sole SDK folder (assumed contract) |
| SdkProcess.CheckVersionDirOn | sdk/process/index.ts:74-90 | outcome and new tree are exactly `CheckVersionDirSpec` |
| SdkProcess.IngestOne | sdk/process/index.ts:40-63 | one turn of the loop is exactly `IngestStep` |
| SdkProcess.Ingest | sdk/process/index.ts:34-66 | an unreadable staging folder rejects with nothing changed; otherwise the listing is the folder's names and the end state is `IngestAll` over it |
| SdkProcess.ProcessSdk.constructor | sdk/process/index.ts:29-32 | the staging path, skips and SDK root are stored |
| SdkProcess.ProcessSdk.CheckVersionDir | sdk/process/index.ts:74-90 | exactly `CheckVersionDirSpec` on the object's root and skips |
| SdkProcess.ProcessSdk.Init | sdk/process/index.ts:34-66 | as `Ingest`, with the object's configuration |
| SdkProcess.ProcessSdk.ProcessVersion | sdk/process/index.ts:118-141 | the version folder is replaced by `NormalizeVersion` of itself; nothing else changes |
| SdkProcess.ProcessSdk.RemoveAllButSdk | sdk/process/index.ts:128-138 | the folder keeps only its "SDK" entry; nothing else changes |
| SdkProcess.ProcessSdk.ProcessPlatform | sdk/process/index.ts:110-143 | the platform folder is replaced by `NormalizePlatform` of itself |
| SdkProcess.ProcessSdk.VisitVersions | sdk/process/index.ts:117-142 | visiting exactly the non-skipped entries of a platform folder, in any listing order, gives `NormalizePlatform` of it |
| SdkProcess.ProcessSdk.ProcessSdkPass | sdk/process/index.ts:92-145 | fails with nothing changed iff the SDK root is not a directory; otherwise the tree becomes `NormalizeAt` of the old one |
| SdkProcess.ProcessSdk.VisitPlatforms | sdk/process/index.ts:109-144 | visiting exactly the platform entries of the SDK root, in any listing order, gives `NormalizeAt` of the tree |
| LegacySdk.LegacyProcessSdk.constructor | sdk/processSDK.ts:25-64 | the fields are stored and `init` runs: listing failure rejects, otherwise the outcome is `IngestAll` over the staging listing |
| LegacySdk.LegacyProcessSdk.CheckVersionDir | sdk/processSDK.ts:72-88 | the same specification as the newer copy |
| LegacySdk.LegacyProcessSdk.ExtractWithProgress | sdk/processSDK.ts:90-108 | extraction with "always" and the object's skips, exactly `UnzipSpec` |
| AndroidManifest.ParseInt | sdk/process/android.ts:138 | NaN iff no digit follows the optional sign |
| AndroidManifest.ParseDecimal | sdk/process/android.ts:137-138 | `parseInt` reads back a decimal spelling, with or without "-", whatever non-digit text follows |
| AndroidManifest.AppVersion | sdk/process/android.ts:137 | undefined without a version name, otherwise one parsed number per "."-separated segment; `AndroidManifest.VersionRoundTrip` proves it reads back |
| AndroidManifest.VersionCode | sdk/process/android.ts:138 | the code parsed, with a missing or empty code read as "1"; `AndroidManifest.VersionCodeCases` proves the cases |
| AndroidManifest.MinSdk | sdk/process/android.ts:140 | the manifest's minimum SDK level when present and non-zero, else the current one; `AndroidManifest.MinSdkFallback` proves it |
| AndroidManifest.AbiFilters | sdk/process/android.ts:141 | the manifest's ABI list whenever present (even empty), else the current one |
| AndroidManifest.VersionRoundTrip | sdk/process/android.ts:137 | a name joined from decimal numbers by "." gives back those numbers, however many |
| AndroidManifest.VersionCodeCases | sdk/process/android.ts:138 | a missing or empty code counts as 1; a decimal code parses back |
| AndroidManifest.MinSdkFallback | sdk/process/android.ts:140 | a missing or zero manifest level keeps the current one; any other present level replaces it; a non-zero current level is never replaced by 0; the result is the current level or the manifest's value |
| AndroidManifest.VersionScenario | sdk/process/android.ts:137-138 | version {"name":"1.2.3","code":"45"} gives [1,2,3] and 45; no version gives undefined and 1 |
| AndroidManifest.Icons | sdk/process/android.ts:147-150 | present iff the icon object is; then its values in order |
| AndroidManifest.MatchAt | sdk/process/android.ts:176 | a match is `android:name="` + a non-empty value without `"` + `"` at the start of the text |
| AndroidManifest.MatchAtComplete | sdk/process/android.ts:176 | any text spelled that way matches, with that value and rest |
| AndroidManifest.ScanNamesSound | sdk/process/android.ts:176-177 | every value found is non-empty, has no `"`, and occurs in the fragment inside the pattern |
| AndroidManifest.ScanNamesOfOccurrence | sdk/process/android.ts:176-177 | a fragment starting with an occurrence yields its value first |
| AndroidManifest.ScanNamesSkip | sdk/process/android.ts:176-177 | text without an "a" contributes no value |
| AndroidManifest.ScanNamesSkipUnmatched | sdk/process/android.ts:176-177 | a prefix where the pattern matches at no position contributes no value |
| AndroidManifest.ScanNamesFindsOccurrence | sdk/process/android.ts:176-177 | the first occurrence of the pattern in a fragment, after any unmatched prefix, yields its value first, followed by the values of the rest |
| AndroidManifest.PermissionListConcat | sdk/process/android.ts:177 | the values of a list of fragments are the values of each fragment, in order |
| AndroidManifest.PermissionListSound | sdk/process/android.ts:174-179 | every listed permission was written, inside the pattern, in one of the fragments |
| AndroidManifest.PermissionListComplete | sdk/process/android.ts:174-179 | the value of the first occurrence of the pattern in any fragment is listed |
| AndroidManifest.UsesPermission | sdk/process/android.ts:176-178 | a `<uses-permission android:name="v"/>` fragment yields exactly `v`, for every non-empty `v` without `"` |
| AndroidManifest.PermissionExample | sdk/process/android.ts:176-178 | `<uses-permission android:name="android.permission.CAMERA"/>` yields just that name |
| AndroidManifest.ProcessAndroid.constructor | sdk/process/android.ts:108-123 | without a manifest every setting keeps its default; with one, each setting is the manifest's projection over the defaults |
| AndroidManifest.ProcessAndroid.Init | sdk/process/android.ts:113-123 | the projection steps run only when a manifest was read |
| AndroidManifest.ProcessAndroid.InitSteps | sdk/process/android.ts:117-122 | from the defaults, the four steps leave every setting at the manifest's projection |
| AndroidManifest.ProcessAndroid.InitManifest | sdk/process/android.ts:125-130 | the manifest is set only when the file exists |
| AndroidManifest.ProcessAndroid.InitBaseConfig | sdk/process/android.ts:132-143 | id, name and description are copied even when absent; version and code are parsed; minimum SDK and ABI filters fall back when falsy |
| AndroidManifest.ProcessAndroid.InitIcons | sdk/process/android.ts:145-152 | icons take the manifest's icon values when present, else stay as they are |
| AndroidManifest.ProcessAndroid.InitModules | sdk/process/android.ts:163-170 | modules take the manifest's `permissions` table when present |
| AndroidManifest.ProcessAndroid.InitPermissions | sdk/process/android.ts:172-181 | permissions become the scanned names when `google.permissions` is present, else stay as they are; the default list is never merged |

## Left out

- `zipDirectory` (sdk/_common/zip.ts:141-173) is a single call into AdmZip, a
  library whose behaviour is not part of this model.
- Decompression, the write streams' contents, piping and "end" events are not
  modelled. An entry carries the lengths of the chunks its stream delivers;
  a file's contents are not modelled at all.
- The `encoding` parameter of `unzipFile` is never used by the code. The
  `onProgress` ratio `curr / total` is a float and is not modelled; the
  model reports the counter values instead.
- Console output and timing are not modelled.
- Zip.UnzipFile: the eager `forEach(async …)` is modelled sequentially.
  - All directory entries are created first, which is what the synchronous
    part of each callback does.
  - The file streams are then opened and fed to the counter one entry after
    the other.
  - A real run may interleave chunks of different streams. The model fixes
    one order, entry by entry.
- Zip.StreamEntry: a failed `createWriteStream` open surfaces in Node as an
  error event, not as a throw. It is modelled as a rejection of the
  extraction.
- Zip.UnzipFile: `StreamZip` is constructed before the existence check. The
  model starts at the check.
- `moveContentsUp` is not part of this model: its body lives in a file
  outside the core.
  - SdkProcess.MoveContentsUp: implements an assumed contract,
    `SdkNormalize.LiftSdk`. On a folder whose only entry is the folder
    `SDK`, that entry's children become the folder's children and `SDK`
    disappears; in every other case nothing changes.
  - `process_sdk` only calls it after the pruning, so at most `SDK` is left.
- The md5 digest (sdk/_common/md5.ts) is not modelled. It is an opaque
  string per staged file, given through `staged`, and a failing hash is not
  modelled.
- The `process_list` of `init` is returned rather than discarded, so that its
  contents can be stated.
- LegacySdk.LegacyProcessSdk.constructor: the un-awaited `this.init()` call is
  modelled as running to completion inside the constructor. Nothing else
  runs concurrently in the model.
- The top-level script of sdk/process/index.ts:148-173 (scan of the app dist
  folder, unzip, delete, log) is not modelled: it is wiring around the
  modelled classes.
- `config.ts` and `type.ts` are not part of this model.
  - The SDK root and the staging folder are fields.
  - The platform names "android" and "ios" are written inline.
- The filesystem has no links, permissions or timestamps. A failed
  `rmSync`/`unlinkSync` is not modelled: the pass only removes listed names.
- `readdirSync` returns the names in an order the model leaves open. `init`
  is proved for whatever order the listing has.
- `toLowerCase` is modelled for ASCII letters only. Every literal it is
  compared with is ASCII.
- AndroidManifest.ParseInt: only an optional sign followed by decimal digits
  is read.
  - Leading whitespace, "0x" prefixes and the `-0` value are not modelled.
  - NaN is `None`.
  - The result is an exact integer. JavaScript's `parseInt` returns a
    double, so a digit run above 2^53 loses precision there.
- AndroidManifest.AppVersion and AndroidManifest.VersionCode: they inherit
  the exact integers of `ParseInt`. The rounding of values above 2^53 is not
  modelled.
- `JSON.parse` and the read of `manifest.json` are not modelled. The
  constructor takes the decoded manifest, or `None` when the file does not
  exist; a file that fails to parse is not modelled.
- Zip.KeepEntries: the archive is given as the sequence `Object.values(entries)`
  produces. How the object orders integer-like entry names first, and that a
  repeated entry name keeps a single entry, are not modelled; only the order
  of the progress values depends on it.
- AndroidManifest.Icons: `Object.values` is modelled as the values of the
  entries in the order given. JavaScript's reordering of integer-like keys is
  not modelled.
- The icon size table, the icon directory and the icon extensions are kept as
  constants. The code declares them but never reads them during `init`. The
  commented-out splash handling is not modelled.
