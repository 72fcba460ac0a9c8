/** `ProcessSDK` of sdk/process/index.ts: `init` ingests the staged
    `<platform>-SDK@<version>.zip` archives into `sdkRoot/platform/version`,
    `check_version_dir` decides whether a target is already populated, and
    `process_sdk` normalizes the SDK tree. The state is the filesystem object;
    what the staged files contain (their digest and what the archive reader
    finds in them) is given as a parameter. */
module SdkProcess {
  import opened Wrappers
  import opened Strings
  import opened FsTree
  import PathProbe
  import opened Zip
  import opened SdkNames
  import opened SdkNormalize

  /** A staged file as far as ingestion sees it: its md5 digest (computed
      outside this model) and what the archive reader finds in it. */
  datatype StagedFile = StagedFile(digest: string, archive: ArchiveFile)

  /** `IProcessListItem`: one ingested archive. */
  datatype ProcessRecord = ProcessRecord(platform: string, version: string, md5: string,
                                         fileName: string, filePath: Path)

  /** The answer of `check_version_dir`: whether the target counted as
      populated, and the target path. */
  datatype VersionDir = VersionDir(present: bool, path: Path)

  datatype InitError =
    | ListingFailed               // readdirSync of the staging folder threw
    | TargetNotCreated            // mkdirSync of a target threw
    | ExtractionFailed(error: UnzipError)

  /** How `init` ends: its promise resolves (Ok), rejects, or never settles
      because an extraction never resolved. */
  datatype InitStatus = Ok | Aborted(reason: InitError) | Stalled

  datatype IngestState = IngestState(root: Node, records: seq<ProcessRecord>, status: InitStatus)

  /** The configuration an ingestion runs with. */
  datatype Setup = Setup(tempPath: Path, sdkRoot: Path, skips: seq<string>, staged: string -> StagedFile)

  // ------------------------------------------------------ check_version_dir

  /** `path.join(sdkRoot, platform, version)`. */
  function TargetPath(sdkRoot: Path, info: SdkInfo): Path {
    Resolve(sdkRoot, SplitOn(info.platform, Separator) + SplitOn(info.version, Separator))
  }

  /** A platform and version that are plain names give `sdkRoot/platform/version`. */
  lemma TargetPathPlain(sdkRoot: Path, info: SdkInfo)
    requires !Contains(info.platform, Separator) && !Contains(info.version, Separator)
    requires info.platform !in {"", ".", ".."} && info.version !in {"", ".", ".."}
    ensures TargetPath(sdkRoot, info) == sdkRoot + [info.platform, info.version]
  {
    SplitFirstPiece(info.platform, Separator);
    SplitFirstPiece(info.version, Separator);
    ResolvePlain(sdkRoot, [info.platform, info.version]);
  }

  /** The target counts as present: it exists and, when it is a folder, holds
      a name outside `skips` (a file cannot be listed, which counts as not empty). */
  predicate Populated(root: Node, p: Path, skips: seq<string>) {
    match Lookup(root, p)
    case None => false
    case Some(File) => true
    case Some(Dir(c)) => exists k :: k in c && k !in skips
  }

  /** `check_version_dir`: a populated target is reported as existing and left
      alone; otherwise it is created (None where `mkdirSync` throws). */
  function CheckVersionDirSpec(root: Node, sdkRoot: Path, skips: seq<string>, info: SdkInfo): (Option<VersionDir>, Node) {
    var target := TargetPath(sdkRoot, info);
    if Populated(root, target, skips) then (Some(VersionDir(true, target)), root)
    else match MkdirP(root, target)
      case None => (None, root)
      case Some(t) => (Some(VersionDir(false, target)), t)
  }

  /** The path answered is always the target; "present" exactly when it was
      populated, and then nothing changes; otherwise the target is a folder
      afterwards, untouched when it already was one. */
  lemma CheckVersionDirOutcome(root: Node, sdkRoot: Path, skips: seq<string>, info: SdkInfo)
    ensures var (r, root') := CheckVersionDirSpec(root, sdkRoot, skips, info);
            var target := TargetPath(sdkRoot, info);
            && (r.Some? ==> r.value.path == target)
            && (r.Some? && r.value.present <==> Populated(root, target, skips))
            && (r.Some? && r.value.present ==> root' == root)
            && (r.Some? && !r.value.present ==> IsDirAt(root', target))
            && (r.None? ==> root' == root && !IsDirAt(root, target))
            && (IsDirAt(root, target) && !Populated(root, target, skips) ==> r == Some(VersionDir(false, target)) && root' == root)
  {
    var target := TargetPath(sdkRoot, info);
    if !Populated(root, target, skips) {
      if MkdirP(root, target).Some? {
        MkdirMakesDir(root, target);
      }
      if IsDirAt(root, target) {
        MkdirExisting(root, target);
      }
    }
  }

  /** The emptiness probe on a listing of the folder agrees with `Populated`. */
  lemma ProbeAgrees(root: Node, p: Path, skips: seq<string>, names: seq<string>)
    requires IsDirAt(root, p)
    requires forall x :: x in names <==> x in Lookup(root, p).value.children
    ensures Populated(root, p, skips) <==> !PathProbe.IsDirectoryEmptySync(PathProbe.Listing(names), skips)
  {
    var c := Lookup(root, p).value.children;
    if Populated(root, p, skips) {
      var k :| k in c && k !in skips;
      var i :| 0 <= i < |names| && names[i] == k;
    }
  }

  // ------------------------------------------------------------------ init

  /** `path.join(temp_path, file_name)`. */
  function StagedPath(tempPath: Path, name: string): Path {
    Resolve(tempPath, SplitOn(name, Separator))
  }

  /** One turn of the `init` loop: a non-candidate is passed over; a candidate
      whose target is populated is skipped; otherwise the archive is hashed,
      extracted with "always", and recorded once the extraction resolved. A
      rejection ends `init` with that error and an extraction that never
      resolves leaves it waiting for ever. After either nothing else happens. */
  ghost function IngestStep(setup: Setup, st: IngestState, name: string): IngestState {
    if !st.status.Ok? || !IsCandidate(name, setup.skips) then st
    else
      var info := Parse(name);
      var (check, root1) := CheckVersionDirSpec(st.root, setup.sdkRoot, setup.skips, info);
      match check
      case None => IngestState(root1, st.records, Aborted(TargetNotCreated))
      case Some(dir) =>
        if dir.present then IngestState(root1, st.records, Ok)
        else
          var staged := setup.staged(name);
          var (r, root2) := UnzipSpec(root1, staged.archive, dir.path, setup.skips, Always);
          match r
          case Failure(e) => IngestState(root2, st.records, Aborted(ExtractionFailed(e)))
          case Success(x) =>
            if x.resolved then
              IngestState(root2, st.records + [ProcessRecord(info.platform, info.version, staged.digest,
                                                              name, StagedPath(setup.tempPath, name))], Ok)
            else IngestState(root2, st.records, Stalled)
  }

  /** The `init` loop over a listing, in listing order. */
  ghost function IngestAll(setup: Setup, st: IngestState, names: seq<string>): IngestState
    decreases |names|
  {
    if |names| == 0 then st
    else IngestStep(setup, IngestAll(setup, st, names[..|names| - 1]), names[|names| - 1])
  }

  lemma IngestPrefixStep(setup: Setup, st: IngestState, names: seq<string>, i: nat)
    requires i < |names|
    ensures IngestAll(setup, st, names[..i + 1]) == IngestStep(setup, IngestAll(setup, st, names[..i]), names[i])
  {
    assert names[..i + 1] == names[..i] + [names[i]];
    IngestAllSnoc(setup, st, names[..i], names[i]);
  }

  lemma IngestAllSnoc(setup: Setup, st: IngestState, names: seq<string>, name: string)
    ensures IngestAll(setup, st, names + [name]) == IngestStep(setup, IngestAll(setup, st, names), name)
  {
    assert (names + [name])[..|names|] == names;
  }

  /** The record a staged archive gives. */
  function RecordOf(setup: Setup, name: string): ProcessRecord
    requires Contains(name, Identity) && EndsWith(ToLower(name), ZipSuffix)
  {
    var info := Parse(name);
    ProcessRecord(info.platform, info.version, setup.staged(name).digest, name, StagedPath(setup.tempPath, name))
  }

  /** What one turn can do: names that are not candidates and candidates whose
      target is populated change nothing; a record is appended only for a
      candidate whose target was not populated and whose extraction resolved. */
  lemma IngestStepEffect(setup: Setup, st: IngestState, name: string)
    requires st.status.Ok?
    ensures !IsCandidate(name, setup.skips) ==> IngestStep(setup, st, name) == st
    ensures IsCandidate(name, setup.skips) && Populated(st.root, TargetPath(setup.sdkRoot, Parse(name)), setup.skips)
            ==> IngestStep(setup, st, name) == st
    ensures var st' := IngestStep(setup, st, name);
            st'.records == st.records
            || (&& IsCandidate(name, setup.skips)
                && !Populated(st.root, TargetPath(setup.sdkRoot, Parse(name)), setup.skips)
                && st'.status.Ok?
                && st'.records == st.records + [RecordOf(setup, name)]
                && var root1 := MkdirP(st.root, TargetPath(setup.sdkRoot, Parse(name))).value;
                   var (r, _) := UnzipSpec(root1, setup.staged(name).archive, TargetPath(setup.sdkRoot, Parse(name)), setup.skips, Always);
                   r.Success? && r.value.resolved)
  {
  }

  /** Once `init` has rejected or stalled, the remaining names change nothing. */
  lemma {:induction false} HaltedStaysHalted(setup: Setup, st: IngestState, names: seq<string>)
    requires !st.status.Ok?
    ensures IngestAll(setup, st, names) == st
    decreases |names|
  {
    if |names| > 0 {
      HaltedStaysHalted(setup, st, names[..|names| - 1]);
    }
  }

  /** The records only grow at the end, and every new one belongs to a
      candidate of the listing: platform and version parsed from its name,
      digest of its file, and its staged path. */
  lemma {:induction false} RecordsFromCandidates(setup: Setup, st: IngestState, names: seq<string>)
    ensures var st' := IngestAll(setup, st, names);
            && |st.records| <= |st'.records|
            && st'.records[..|st.records|] == st.records
            && forall j :: |st.records| <= j < |st'.records| ==>
                 && st'.records[j].fileName in names
                 && IsCandidate(st'.records[j].fileName, setup.skips)
                 && st'.records[j] == RecordOf(setup, st'.records[j].fileName)
    decreases |names|
  {
    if |names| > 0 {
      var init := names[..|names| - 1];
      var name := names[|names| - 1];
      RecordsFromCandidates(setup, st, init);
      var mid := IngestAll(setup, st, init);
      var st' := IngestStep(setup, mid, name);
      assert forall x :: x in init ==> x in names;
      if mid.status.Ok? {
        IngestStepEffect(setup, mid, name);
      }
      assert st'.records == mid.records || st'.records == mid.records + [RecordOf(setup, name)];
      assert st'.records[..|mid.records|] == mid.records;
      assert st'.records[..|st.records|] == mid.records[..|st.records|];
    }
  }

  // ----------------------------------------------------------- process_sdk

  /** `Array.prototype.filter` on a listing. */
  function Filter(names: seq<string>, keep: string -> bool): (r: seq<string>)
    ensures forall x :: x in r <==> x in names && keep(x)
  {
    if |names| == 0 then []
    else (if keep(names[0]) then [names[0]] else []) + Filter(names[1..], keep)
  }

  /** Filtering a listing of distinct names keeps them distinct. */
  lemma {:induction false} FilterDistinct(names: seq<string>, keep: string -> bool)
    requires Distinct(names)
    ensures Distinct(Filter(names, keep))
    decreases |names|
  {
    if |names| > 0 {
      assert Distinct(names[1..]) by {
        forall i, j | 0 <= i < j < |names| - 1 ensures names[1..][i] != names[1..][j] {
          assert names[1..][i] == names[i + 1] && names[1..][j] == names[j + 1];
        }
      }
      FilterDistinct(names[1..], keep);
      var head := if keep(names[0]) then [names[0]] else [];
      var tail := Filter(names[1..], keep);
      forall i, j | 0 <= i < j < |head + tail| ensures (head + tail)[i] != (head + tail)[j] {
        if i < |head| {
          assert (head + tail)[i] == names[0];
          assert (head + tail)[j] == tail[j - |head|];
          assert tail[j - |head|] in names[1..];
          assert forall k :: 0 <= k < |names| - 1 ==> names[1..][k] == names[k + 1] != names[0];
        } else {
          assert (head + tail)[i] == tail[i - |head|];
        }
      }
    }
  }

  /** A visited child of a folder being normalized: the lookup of the child
      and the replacement of the child expressed on the folder. */
  lemma ChildStep(before: Node, p: Path, m: map<string, Node>, name: string, x: Node)
    requires Lookup(before, p).Some? && name in m
    ensures var r := Update(before, p, Dir(m));
            && Lookup(r, p + [name]) == Some(m[name])
            && Update(r, p + [name], x) == Update(before, p, Dir(m[name := x]))
            && Lookup(Update(r, p + [name], x), p) == Some(Dir(m[name := x]))
  {
    var r := Update(before, p, Dir(m));
    LookupUpdate(before, p, Dir(m));
    UpdateNested(r, p, [name], x);
    assert [name][1..] == [];
    assert Update(Dir(m), [name], x) == Dir(m[name := x]);
    UpdateUpdate(before, p, Dir(m), Dir(m[name := x]));
    LookupUpdate(before, p, Dir(m[name := x]));
  }

  /** Removing one more entry of a folder already being emptied. */
  lemma RemoveStep(before: Node, p: Path, c: map<string, Node>, removed: set<string>, name: string)
    requires Lookup(before, p).Some?
    ensures var r := Update(before, p, Dir(c - removed));
            && Lookup(r, p) == Some(Dir(c - removed))
            && RemoveChild(Dir(c - removed), name) == Dir(c - (removed + {name}))
            && Update(r, p, Dir(c - (removed + {name}))) == Update(before, p, Dir(c - (removed + {name})))
            && Lookup(Update(before, p, Dir(c - (removed + {name}))), p) == Some(Dir(c - (removed + {name})))
  {
    LookupUpdate(before, p, Dir(c - removed));
    UpdateUpdate(before, p, Dir(c - removed), Dir(c - (removed + {name})));
    LookupUpdate(before, p, Dir(c - (removed + {name})));
  }

  lemma VersionsStep(c: map<string, Node>, done: set<string>, v: string)
    requires v in c
    ensures NormalizeVersions(c, done)[v := NormalizeVersion(c[v])] == NormalizeVersions(c, done + {v})
  {
  }

  lemma PlatformsStep(c: map<string, Node>, done: set<string>, p: string, skips: seq<string>)
    requires p in c
    ensures NormalizePlatforms(c, done, skips)[p := NormalizePlatform(c[p], skips)] == NormalizePlatforms(c, done + {p}, skips)
  {
  }

  /** `MoveContentsUp` on the filesystem, under the contract assumed for it. */
  method MoveContentsUp(fs: FileSystem, dir: Path)
    requires IsDirAt(fs.root, dir)
    modifies fs
    ensures fs.root == Update(old(fs.root), dir, LiftSdk(Lookup(old(fs.root), dir).value))
  {
    fs.root := Update(fs.root, dir, LiftSdk(Lookup(fs.root, dir).value));
  }

  // --------------------------------- the steps shared by both ProcessSDK copies

  /** The body of `check_version_dir`, on the filesystem. */
  method CheckVersionDirOn(fs: FileSystem, sdkRoot: Path, skips: seq<string>, info: SdkInfo)
    returns (r: Option<VersionDir>)
    modifies fs
    ensures (r, fs.root) == CheckVersionDirSpec(old(fs.root), sdkRoot, skips, info)
  {
    var target := TargetPath(sdkRoot, info);
    var present := fs.Exists(target);
    var empty := false;
    if present {
      var listing := fs.ReadDir(target);
      empty := PathProbe.IsDirectoryEmptySync(listing, skips);
      if listing.Listing? {
        ProbeAgrees(fs.root, target, skips, listing.names);
      }
    }
    if !present || empty {
      var ok := fs.Mkdir(target);
      if !ok {
        return None;
      }
      return Some(VersionDir(false, target));
    }
    return Some(VersionDir(true, target));
  }

  /** One turn of the `init` loop, on a name of the staging listing. */
  method IngestOne(fs: FileSystem, setup: Setup, name: string, records: seq<ProcessRecord>)
    returns (records': seq<ProcessRecord>, status: InitStatus)
    modifies fs
    ensures IngestState(fs.root, records', status) == IngestStep(setup, IngestState(old(fs.root), records, Ok), name)
  {
    records', status := records, Ok;
    if name in setup.skips || !Contains(name, Identity) || !EndsWith(ToLower(name), ZipSuffix) {
      return;
    }
    var info := Parse(name);
    var check := CheckVersionDirOn(fs, setup.sdkRoot, setup.skips, info);
    if check.None? {
      return records, Aborted(TargetNotCreated);
    }
    if check.value.present {
      return;
    }
    var md5 := setup.staged(name).digest;
    var r := UnzipFile(fs, setup.staged(name).archive, check.value.path, setup.skips, Always);
    if r.Failure? {
      return records, Aborted(ExtractionFailed(r.error));
    }
    if !r.value.resolved {
      return records, Stalled;
    }
    records' := records + [ProcessRecord(info.platform, info.version, md5, name, StagedPath(setup.tempPath, name))];
  }

  /** The body of `init`: the staging listing (in the order read) and how the
      ingestion ended; `process_list` is returned instead of dropped. */
  method Ingest(fs: FileSystem, setup: Setup) returns (files: seq<string>, records: seq<ProcessRecord>, status: InitStatus)
    modifies fs
    ensures !IsDirAt(old(fs.root), setup.tempPath) ==> status == Aborted(ListingFailed) && records == [] && fs.root == old(fs.root)
    ensures IsDirAt(old(fs.root), setup.tempPath) ==>
              && Distinct(files)
              && (forall x :: x in files <==> x in Lookup(old(fs.root), setup.tempPath).value.children)
              && IngestState(fs.root, records, status) == IngestAll(setup, IngestState(old(fs.root), [], Ok), files)
  {
    var listing := fs.ReadDir(setup.tempPath);
    if listing.ReadError? {
      return [], [], Aborted(ListingFailed);
    }
    files := listing.names;
    records, status := [], Ok;
    ghost var start := IngestState(fs.root, [], Ok);
    var i := 0;
    while i < |files|
      invariant 0 <= i <= |files|
      invariant status.Ok?
      invariant IngestState(fs.root, records, status) == IngestAll(setup, start, files[..i])
    {
      IngestPrefixStep(setup, start, files, i);
      records, status := IngestOne(fs, setup, files[i], records);
      i := i + 1;
      if !status.Ok? {
        HaltedPrefix(setup, start, files, i);
        break;
      }
    }
    if status.Ok? {
      assert files[..i] == files;
    }
    assert IngestState(fs.root, records, status) == IngestAll(setup, start, files);
  }

  // ------------------------------------------------------------- the class

  /** `ProcessSDK` of sdk/process/index.ts. */
  class ProcessSdk {
    const fs: FileSystem
    /** `temp_path`: the staging folder. */
    const tempPath: Path
    /** `skips`: names passed over everywhere (macOS metadata files). */
    const skips: seq<string>
    /** `config.uniapp_sdk_path`. */
    const sdkRoot: Path
    /** What each staged file holds. */
    const staged: string -> StagedFile

    constructor(fs: FileSystem, tempPath: Path, skips: seq<string>, sdkRoot: Path, staged: string -> StagedFile)
      ensures this.fs == fs && this.tempPath == tempPath && this.skips == skips
      ensures this.sdkRoot == sdkRoot && this.staged == staged
    {
      this.fs := fs;
      this.tempPath := tempPath;
      this.skips := skips;
      this.sdkRoot := sdkRoot;
      this.staged := staged;
    }

    function Config(): Setup {
      Setup(tempPath, sdkRoot, skips, staged)
    }

    /** `check_version_dir({platform, version})`. */
    method CheckVersionDir(info: SdkInfo) returns (r: Option<VersionDir>)
      modifies fs
      ensures (r, fs.root) == CheckVersionDirSpec(old(fs.root), sdkRoot, skips, info)
    {
      r := CheckVersionDirOn(fs, sdkRoot, skips, info);
    }

    /** `init()`. */
    method Init() returns (files: seq<string>, records: seq<ProcessRecord>, status: InitStatus)
      modifies fs
      ensures !IsDirAt(old(fs.root), tempPath) ==> status == Aborted(ListingFailed) && records == [] && fs.root == old(fs.root)
      ensures IsDirAt(old(fs.root), tempPath) ==>
                && Distinct(files)
                && (forall x :: x in files <==> x in Lookup(old(fs.root), tempPath).value.children)
                && IngestState(fs.root, records, status) == IngestAll(Config(), IngestState(old(fs.root), [], Ok), files)
    {
      files, records, status := Ingest(fs, Config());
    }

    /** One version folder of `process_sdk`: unless it lists "libs", every
        entry but `SDK` is removed, then `moveContentsUp` runs. */
    method ProcessVersion(vp: Path)
      requires IsDirAt(fs.root, vp)
      modifies fs
      ensures fs.root == Update(old(fs.root), vp, NormalizeVersion(Lookup(old(fs.root), vp).value))
    {
      ghost var c0 := Lookup(fs.root, vp).value.children;
      var listing := fs.ReadDir(vp);
      var files := listing.names;
      ListsLibsIsDone(files, c0);
      if ListsLibs(files) {
        UpdateSame(fs.root, vp);
        return;
      }
      RemoveAllButSdk(vp, files);
      LookupUpdate(old(fs.root), vp, Dir(PruneToSdk(c0)));
      MoveContentsUp(fs, vp);
      UpdateUpdate(old(fs.root), vp, Dir(PruneToSdk(c0)), LiftSdk(Dir(PruneToSdk(c0))));
    }

    /** The removal loop of `process_sdk` over the listing of a version folder:
        every name but `SDK` is removed (`rmSync` or `unlinkSync`). */
    method RemoveAllButSdk(vp: Path, files: seq<string>)
      requires IsDirAt(fs.root, vp) && Distinct(files)
      requires forall x :: x in files <==> x in Lookup(fs.root, vp).value.children
      modifies fs
      ensures IsDirAt(fs.root, vp)
      ensures fs.root == Update(old(fs.root), vp, Dir(PruneToSdk(Lookup(old(fs.root), vp).value.children)))
    {
      ghost var c0 := Lookup(fs.root, vp).value.children;
      ghost var removed: set<string> := {};
      UpdateSame(fs.root, vp);
      assert c0 - removed == c0;
      var i := 0;
      while i < |files|
        invariant 0 <= i <= |files|
        invariant forall x :: x in removed <==> x in files[..i] && x != SdkEntry
        invariant Lookup(fs.root, vp) == Some(Dir(c0 - removed))
        invariant fs.root == Update(old(fs.root), vp, Dir(c0 - removed))
      {
        var name := files[i];
        assert files[..i + 1] == files[..i] + [name];
        if name != SdkEntry {
          assert name !in files[..i];
          RemoveStep(old(fs.root), vp, c0, removed, name);
          fs.Remove(vp, name);
          removed := removed + {name};
        }
        i := i + 1;
      }
      assert files[..i] == files;
      assert c0 - removed == PruneToSdk(c0);
    }

    /** One platform folder of `process_sdk`: each version entry that is not
        skipped and is a folder goes through `ProcessVersion`. */
    method ProcessPlatform(pp: Path)
      requires IsDirAt(fs.root, pp)
      modifies fs
      ensures fs.root == Update(old(fs.root), pp, NormalizePlatform(Lookup(old(fs.root), pp).value, skips))
    {
      var listing := fs.ReadDir(pp);
      var versions := Filter(listing.names, (v: string) => v !in skips);
      FilterDistinct(listing.names, (v: string) => v !in skips);
      VisitVersions(pp, versions);
    }

    /** The version loop of `process_sdk`, over the listing of a platform
        folder without the skipped names. */
    method VisitVersions(pp: Path, versions: seq<string>)
      requires IsDirAt(fs.root, pp) && Distinct(versions)
      requires forall x :: x in versions <==> x in VisitedVersions(Lookup(fs.root, pp).value.children, skips)
      modifies fs
      ensures fs.root == Update(old(fs.root), pp, NormalizePlatform(Lookup(old(fs.root), pp).value, skips))
    {
      ghost var c0 := Lookup(fs.root, pp).value.children;
      ghost var done: set<string> := {};
      UpdateSame(fs.root, pp);
      assert NormalizeVersions(c0, done) == c0;
      var i := 0;
      while i < |versions|
        invariant 0 <= i <= |versions|
        invariant forall x :: x in done <==> x in versions[..i]
        invariant Lookup(fs.root, pp) == Some(Dir(NormalizeVersions(c0, done)))
        invariant fs.root == Update(old(fs.root), pp, Dir(NormalizeVersions(c0, done)))
      {
        var version := versions[i];
        assert versions[..i + 1] == versions[..i] + [version];
        assert version !in done;
        assert version in VisitedVersions(c0, skips);
        VisitVersion(pp, old(fs.root), c0, done, version);
        done := done + {version};
        i := i + 1;
      }
      assert versions[..i] == versions;
      assert done == VisitedVersions(c0, skips);
    }

    /** One turn of the version loop: a version entry that is a folder goes
        through `ProcessVersion`; a file is left alone. */
    method VisitVersion(pp: Path, ghost before: Node, ghost c0: map<string, Node>, ghost done: set<string>, version: string)
      requires Lookup(before, pp).Some? && version in c0 && version !in done
      requires fs.root == Update(before, pp, Dir(NormalizeVersions(c0, done)))
      modifies fs
      ensures fs.root == Update(before, pp, Dir(NormalizeVersions(c0, done + {version})))
      ensures Lookup(fs.root, pp) == Some(Dir(NormalizeVersions(c0, done + {version})))
    {
      ghost var m := NormalizeVersions(c0, done);
      ChildStep(before, pp, m, version, NormalizeVersion(c0[version]));
      var isDir := fs.IsDirectory(pp + [version]);
      if isDir {
        ProcessVersion(pp + [version]);
      } else {
        UpdateSame(fs.root, pp + [version]);
      }
      VersionsStep(c0, done, version);
    }

    /** One turn of the platform loop: a platform entry that is a folder goes
        through `ProcessPlatform`; a file is left alone. */
    method VisitPlatform(ghost before: Node, ghost c0: map<string, Node>, ghost done: set<string>, platform: string)
      requires Lookup(before, sdkRoot).Some? && platform in c0 && platform !in done
      requires fs.root == Update(before, sdkRoot, Dir(NormalizePlatforms(c0, done, skips)))
      modifies fs
      ensures fs.root == Update(before, sdkRoot, Dir(NormalizePlatforms(c0, done + {platform}, skips)))
      ensures Lookup(fs.root, sdkRoot) == Some(Dir(NormalizePlatforms(c0, done + {platform}, skips)))
    {
      ghost var m := NormalizePlatforms(c0, done, skips);
      ChildStep(before, sdkRoot, m, platform, NormalizePlatform(c0[platform], skips));
      var isDir := fs.IsDirectory(sdkRoot + [platform]);
      if isDir {
        ProcessPlatform(sdkRoot + [platform]);
      } else {
        UpdateSame(fs.root, sdkRoot + [platform]);
      }
      PlatformsStep(c0, done, platform, skips);
    }

    /** `process_sdk()`: false when the SDK root cannot be listed (the
        promise rejects and nothing changes); otherwise the tree is normalized. */
    method ProcessSdkPass() returns (ok: bool)
      modifies fs
      ensures ok <==> IsDirAt(old(fs.root), sdkRoot)
      ensures fs.root == if ok then NormalizeAt(old(fs.root), sdkRoot, skips).value else old(fs.root)
    {
      var listing := fs.ReadDir(sdkRoot);
      if listing.ReadError? {
        return false;
      }
      var platforms := Filter(listing.names, (p: string) => IsPlatformName(p, skips));
      FilterDistinct(listing.names, (p: string) => IsPlatformName(p, skips));
      VisitPlatforms(platforms);
      ok := true;
    }

    /** The platform loop of `process_sdk`, over the platform folders of the
        SDK root's listing. */
    method VisitPlatforms(platforms: seq<string>)
      requires IsDirAt(fs.root, sdkRoot) && Distinct(platforms)
      requires forall x :: x in platforms <==> x in VisitedPlatforms(Lookup(fs.root, sdkRoot).value.children, skips)
      modifies fs
      ensures fs.root == NormalizeAt(old(fs.root), sdkRoot, skips).value
    {
      ghost var c0 := Lookup(fs.root, sdkRoot).value.children;
      ghost var done: set<string> := {};
      UpdateSame(fs.root, sdkRoot);
      assert NormalizePlatforms(c0, done, skips) == c0;
      var i := 0;
      while i < |platforms|
        invariant 0 <= i <= |platforms|
        invariant forall x :: x in done <==> x in platforms[..i]
        invariant Lookup(fs.root, sdkRoot) == Some(Dir(NormalizePlatforms(c0, done, skips)))
        invariant fs.root == Update(old(fs.root), sdkRoot, Dir(NormalizePlatforms(c0, done, skips)))
      {
        var platform := platforms[i];
        assert platforms[..i + 1] == platforms[..i] + [platform];
        assert platform !in done;
        assert platform in VisitedPlatforms(c0, skips);
        VisitPlatform(old(fs.root), c0, done, platform);
        done := done + {platform};
        i := i + 1;
      }
      assert platforms[..i] == platforms;
      assert done == VisitedPlatforms(c0, skips);
    }
  }

  /** A halt after the first `i` names is the outcome of the whole listing. */
  lemma HaltedPrefix(setup: Setup, st: IngestState, names: seq<string>, i: nat)
    requires i <= |names| && !IngestAll(setup, st, names[..i]).status.Ok?
    ensures IngestAll(setup, st, names) == IngestAll(setup, st, names[..i])
  {
    assert names == names[..i] + names[i..];
    IngestAllSplit(setup, st, names[..i], names[i..]);
    HaltedStaysHalted(setup, IngestAll(setup, st, names[..i]), names[i..]);
  }

  lemma {:induction false} IngestAllSplit(setup: Setup, st: IngestState, a: seq<string>, b: seq<string>)
    ensures IngestAll(setup, st, a + b) == IngestAll(setup, IngestAll(setup, st, a), b)
    decreases |b|
  {
    if |b| == 0 {
      assert a + b == a;
    } else {
      var b' := b[..|b| - 1];
      assert a + b == (a + b') + [b[|b| - 1]];
      IngestAllSnoc(setup, st, a + b', b[|b| - 1]);
      IngestAllSplit(setup, st, a, b');
      IngestAllSnoc(setup, IngestAll(setup, st, a), b', b[|b| - 1]);
      assert b == b' + [b[|b| - 1]];
    }
  }
}
