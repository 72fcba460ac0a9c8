/** Archive extraction as `unzipFile` in sdk/_common/zip.ts does it: filter the
    entries, decide whether to strip a single top-level folder, create the
    directories, open the files and count the decompressed bytes until the
    total is reached. The decompression itself is abstracted: an entry carries
    the lengths of the chunks its stream delivers. */
module Zip {
  import opened Wrappers
  import opened Strings
  import opened FsTree

  /** An archive entry: its full name, whether it is a directory, its
      uncompressed size and the lengths of the chunks its stream yields. */
  datatype Entry = Entry(name: string, isDirectory: bool, size: nat, chunks: seq<nat>)

  /** The `removeTopLevel` argument: "always", "auto" or false. */
  datatype TopLevelPolicy = Always | Auto | Never

  /** What lies at `zipFilePath`: nothing, a file the archive reader rejects,
      or an archive with its entries. */
  datatype ArchiveFile = Missing | Unreadable | Readable(entries: seq<Entry>)

  datatype UnzipError =
    | ArchiveNotFound     // the existence check before anything else
    | OutputDirFailed     // mkdirSync of the output directory threw
    | ArchiveUnreadable   // zip.entries() rejected
    | EntryFailed         // an entry's directory or file could not be created

  /** A settled extraction: the counter values reported after each chunk and
      whether the promise was resolved. */
  datatype Extraction = Extraction(progress: seq<nat>, resolved: bool)

  const Separator := "/"

  // ---------------------------------------------------------------- filtering

  /** Some ignore string is a substring of the entry name. */
  predicate Ignored(name: string, ignoreFiles: seq<string>) {
    exists i :: 0 <= i < |ignoreFiles| && Contains(name, ignoreFiles[i])
  }

  /** The entries whose names contain none of the ignore strings, in the order of
      `Object.values(entries)`, which the archive is given in. */
  function KeepEntries(entries: seq<Entry>, ignoreFiles: seq<string>): (kept: seq<Entry>)
    ensures forall e :: e in kept <==> e in entries && !Ignored(e.name, ignoreFiles)
    ensures |kept| <= |entries|
  {
    if |entries| == 0 then []
    else (if Ignored(entries[0].name, ignoreFiles) then [] else [entries[0]])
         + KeepEntries(entries[1..], ignoreFiles)
  }

  lemma {:induction false} KeepConcat(a: seq<Entry>, b: seq<Entry>, ignoreFiles: seq<string>)
    ensures KeepEntries(a + b, ignoreFiles) == KeepEntries(a, ignoreFiles) + KeepEntries(b, ignoreFiles)
    decreases |a|
  {
    if |a| > 0 {
      assert (a + b)[1..] == a[1..] + b;
      KeepConcat(a[1..], b, ignoreFiles);
    } else {
      assert a + b == b;
    }
  }

  // ------------------------------------------------------ top-level folder

  /** `entry.name.split("/")[0]`. */
  function TopLevelDir(name: string): string {
    SplitOn(name, Separator)[0]
  }

  /** `entryName.split("/").slice(1).join("/")`. */
  function StripTopLevel(name: string): string {
    Join(SplitOn(name, Separator)[1..], Separator)
  }

  /** The top-level name is the text before the first "/" (the whole name when
      there is none) and stripping keeps exactly the text after it, so the two
      put back together give the original name. */
  lemma TopLevelSplit(name: string)
    ensures !Contains(TopLevelDir(name), Separator)
    ensures !Contains(name, Separator) ==> TopLevelDir(name) == name && StripTopLevel(name) == ""
    ensures Contains(name, Separator) ==> name == TopLevelDir(name) + Separator + StripTopLevel(name)
  {
    var parts := SplitOn(name, Separator);
    SplitPiecesFree(name, Separator);
    assert !Contains(parts[0], Separator);
    var i := Find(name, Separator);
    SplitFirstPiece(name, Separator);
    if i == -1 {
      assert parts == [name];
    } else {
      var rest := name[i + 1..];
      assert parts == [name[..i]] + SplitOn(rest, Separator);
      JoinSplit(rest, Separator);
      assert parts[1..] == SplitOn(rest, Separator);
      assert name[i..i + 1] == Separator;
      assert name == name[..i] + name[i..i + 1] + rest;
    }
  }

  /** The set of top-level names of the given entries. */
  ghost function TopLevelDirs(entries: seq<Entry>): set<string> {
    set e | e in entries :: TopLevelDir(e.name)
  }

  /** The `topLevelDirs` set filled by `forEach`. */
  method CollectTopLevelDirs(entries: seq<Entry>) returns (dirs: set<string>)
    ensures dirs == TopLevelDirs(entries)
  {
    dirs := {};
    var i := 0;
    while i < |entries|
      invariant 0 <= i <= |entries|
      invariant dirs == TopLevelDirs(entries[..i])
    {
      assert entries[..i + 1] == entries[..i] + [entries[i]];
      dirs := dirs + {TopLevelDir(entries[i].name)};
      i := i + 1;
    }
    assert entries[..i] == entries;
  }

  /** Whether the single shared top-level folder is stripped. */
  predicate ShouldStrip(dirs: set<string>, policy: TopLevelPolicy, outputBase: string) {
    |dirs| == 1 && (policy.Always? || (policy.Auto? && outputBase in dirs))
  }

  /** The `shouldRemoveTopLevel` decision, taking the one element of the set. */
  method DecideStrip(dirs: set<string>, policy: TopLevelPolicy, outputBase: string) returns (strip: bool)
    ensures strip == ShouldStrip(dirs, policy, outputBase)
  {
    strip := false;
    if |dirs| == 1 {
      var topLevelDir :| topLevelDir in dirs;
      SingletonSet(dirs, topLevelDir);
      if policy == Always {
        strip := true;
      } else if policy == Auto && topLevelDir == outputBase {
        strip := true;
      }
    }
  }

  lemma SingletonSet(s: set<string>, x: string)
    requires |s| == 1 && x in s
    ensures s == {x}
  {
    var rest := s - {x};
    assert |rest| == 0;
    assert s == rest + {x};
  }

  /** "always" strips exactly when there is one top-level name, "auto" only
      when that name is the output directory's own name, false never. */
  lemma StripDecision(dirs: set<string>, outputBase: string)
    ensures ShouldStrip(dirs, Always, outputBase) <==> |dirs| == 1
    ensures ShouldStrip(dirs, Auto, outputBase) <==> dirs == {outputBase}
    ensures !ShouldStrip(dirs, Never, outputBase)
  {
    if |dirs| == 1 && outputBase in dirs {
      SingletonSet(dirs, outputBase);
    }
  }

  /** `path.basename(outputDir)`. */
  function Basename(p: Path): string {
    if |p| == 0 then "" else p[|p| - 1]
  }

  /** The entry name after the optional rewrite. */
  function EntryName(e: Entry, strip: bool): string {
    if strip then StripTopLevel(e.name) else e.name
  }

  /** `path.join(outputDir, entryName)`. */
  function EntryPath(outputDir: Path, e: Entry, strip: bool): Path {
    Resolve(outputDir, SplitOn(EntryName(e, strip), Separator))
  }

  // ------------------------------------------------------------ byte counts

  /** `filteredEntries.reduce((acc, entry) => acc + entry.size, 0)`. */
  function TotalSize(entries: seq<Entry>): nat {
    if |entries| == 0 then 0 else entries[0].size + TotalSize(entries[1..])
  }

  lemma {:induction false} TotalSizeConcat(a: seq<Entry>, b: seq<Entry>)
    ensures TotalSize(a + b) == TotalSize(a) + TotalSize(b)
    decreases |a|
  {
    if |a| > 0 {
      assert (a + b)[1..] == a[1..] + b;
      TotalSizeConcat(a[1..], b);
    } else {
      assert a + b == b;
    }
  }

  /** Ignored entries never count towards the total, wherever they stand. */
  lemma IgnoredEntryNotCounted(before: seq<Entry>, e: Entry, after: seq<Entry>, ignoreFiles: seq<string>)
    requires Ignored(e.name, ignoreFiles)
    ensures TotalSize(KeepEntries(before + [e] + after, ignoreFiles))
         == TotalSize(KeepEntries(before + after, ignoreFiles))
  {
    KeepConcat(before + [e], after, ignoreFiles);
    KeepConcat(before, [e], ignoreFiles);
    KeepConcat(before, after, ignoreFiles);
    assert KeepEntries([e], ignoreFiles) == [];
    assert KeepEntries(before, ignoreFiles) + [] == KeepEntries(before, ignoreFiles);
  }

  /** A kept entry adds its own size to the total. */
  lemma KeptEntryCounted(before: seq<Entry>, e: Entry, after: seq<Entry>, ignoreFiles: seq<string>)
    requires !Ignored(e.name, ignoreFiles)
    ensures TotalSize(KeepEntries(before + [e] + after, ignoreFiles))
         == TotalSize(KeepEntries(before + after, ignoreFiles)) + e.size
  {
    KeepConcat(before + [e], after, ignoreFiles);
    KeepConcat(before, [e], ignoreFiles);
    KeepConcat(before, after, ignoreFiles);
    var kb, ka := KeepEntries(before, ignoreFiles), KeepEntries(after, ignoreFiles);
    assert KeepEntries([e], ignoreFiles) == [e];
    TotalSizeConcat(kb + [e], ka);
    TotalSizeConcat(kb, [e]);
    TotalSizeConcat(kb, ka);
  }

  function Sum(chunks: seq<nat>): nat {
    if |chunks| == 0 then 0 else chunks[0] + Sum(chunks[1..])
  }

  lemma {:induction false} SumConcat(a: seq<nat>, b: seq<nat>)
    ensures Sum(a + b) == Sum(a) + Sum(b)
    decreases |a|
  {
    if |a| > 0 {
      assert (a + b)[1..] == a[1..] + b;
      SumConcat(a[1..], b);
    } else {
      assert a + b == b;
    }
  }

  /** The chunks the file streams deliver, entry after entry; directory
      entries have no stream. */
  function StreamChunks(entries: seq<Entry>): seq<nat> {
    if |entries| == 0 then []
    else (if entries[0].isDirectory then [] else entries[0].chunks) + StreamChunks(entries[1..])
  }

  lemma {:induction false} StreamChunksConcat(a: seq<Entry>, b: seq<Entry>)
    ensures StreamChunks(a + b) == StreamChunks(a) + StreamChunks(b)
    decreases |a|
  {
    if |a| > 0 {
      assert (a + b)[1..] == a[1..] + b;
      StreamChunksConcat(a[1..], b);
    } else {
      assert a + b == b;
    }
  }

  /** The counter values after each chunk, starting from `start`. */
  function Running(start: nat, chunks: seq<nat>): (r: seq<nat>)
    ensures |r| == |chunks|
    decreases |chunks|
  {
    if |chunks| == 0 then [] else [start + chunks[0]] + Running(start + chunks[0], chunks[1..])
  }

  lemma {:induction false} RunningConcat(start: nat, a: seq<nat>, b: seq<nat>)
    ensures Running(start, a + b) == Running(start, a) + Running(start + Sum(a), b)
    decreases |a|
  {
    if |a| > 0 {
      assert (a + b)[1..] == a[1..] + b;
      RunningConcat(start + a[0], a[1..], b);
    } else {
      assert a + b == b;
    }
  }

  /** The counter never goes down, never falls below where it started, and ends
      at the start plus every chunk length. */
  lemma {:induction false} RunningMonotone(start: nat, chunks: seq<nat>)
    ensures forall i, j :: 0 <= i <= j < |chunks| ==> start <= Running(start, chunks)[i] <= Running(start, chunks)[j]
    ensures |chunks| > 0 ==> Running(start, chunks)[|chunks| - 1] == start + Sum(chunks)
    decreases |chunks|
  {
    if |chunks| > 0 {
      var tail := Running(start + chunks[0], chunks[1..]);
      RunningMonotone(start + chunks[0], chunks[1..]);
      assert Running(start, chunks) == [start + chunks[0]] + tail;
    }
  }

  /** Some reported counter value has reached the total: the progress bar's
      `complete` test after a tick. */
  predicate Reaches(progress: seq<nat>, total: nat) {
    exists j :: 0 <= j < |progress| && progress[j] >= total
  }

  lemma ReachesConcat(a: seq<nat>, b: seq<nat>, total: nat)
    ensures Reaches(a + b, total) <==> Reaches(a, total) || Reaches(b, total)
  {
    if Reaches(a + b, total) {
      var j :| 0 <= j < |a + b| && (a + b)[j] >= total;
      if j >= |a| {
        assert b[j - |a|] >= total;
      }
    }
    if Reaches(a, total) {
      var j :| 0 <= j < |a| && a[j] >= total;
      assert (a + b)[j] >= total;
    }
    if Reaches(b, total) {
      var j :| 0 <= j < |b| && b[j] >= total;
      assert (a + b)[|a| + j] >= total;
    }
  }

  /** The progress bar, reduced to its counter: `tick(len)` adds, `complete`
      holds once the counter is at least the total. */
  class ByteCounter {
    var curr: nat
    const total: nat

    constructor(total: nat)
      ensures this.total == total && curr == 0
    {
      this.total := total;
      curr := 0;
    }

    predicate Complete()
      reads this
    {
      curr >= total
    }

    method Tick(len: nat)
      modifies this
      ensures curr == old(curr) + len
    {
      curr := curr + len;
    }
  }

  /** The "data" handler of one entry stream, run for each of its chunks: tick,
      report the counter, note whether the bar is complete. */
  method FeedChunks(counter: ByteCounter, chunks: seq<nat>) returns (reported: seq<nat>, reached: bool)
    modifies counter
    ensures counter.curr == old(counter.curr) + Sum(chunks)
    ensures reported == Running(old(counter.curr), chunks)
    ensures reached <==> Reaches(reported, counter.total)
  {
    reported, reached := [], false;
    var i := 0;
    while i < |chunks|
      invariant 0 <= i <= |chunks|
      invariant counter.curr == old(counter.curr) + Sum(chunks[..i])
      invariant reported == Running(old(counter.curr), chunks[..i])
      invariant reached <==> Reaches(reported, counter.total)
    {
      assert chunks[..i + 1] == chunks[..i] + [chunks[i]];
      FeedStep(old(counter.curr), chunks[..i], chunks[i], counter.total);
      counter.Tick(chunks[i]);
      reported := reported + [counter.curr];
      reached := reached || counter.Complete();
      i := i + 1;
    }
    assert chunks[..i] == chunks;
  }

  /** One more chunk: the sum grows by it, one counter value is appended, and
      the bar is reached when it was before or that value reaches the total. */
  lemma FeedStep(start: nat, done: seq<nat>, c: nat, total: nat)
    ensures Sum(done + [c]) == Sum(done) + c
    ensures Running(start, done + [c]) == Running(start, done) + [start + Sum(done) + c]
    ensures Reaches(Running(start, done) + [start + Sum(done) + c], total)
        <==> Reaches(Running(start, done), total) || start + Sum(done) + c >= total
  {
    SumConcat(done, [c]);
    RunningConcat(start, done, [c]);
    assert Running(start + Sum(done), [c]) == [start + Sum(done) + c] + Running(start + Sum(done) + c, []);
    ReachesConcat(Running(start, done), [start + Sum(done) + c], total);
    assert [start + Sum(done) + c][0] == start + Sum(done) + c;
  }

  // ----------------------------------------------------- effects on the tree

  /** Creating the output directory when it does not exist; None where
      `mkdirSync` throws. */
  function PrepareOutput(root: Node, outputDir: Path): (r: Option<Node>)
    ensures Lookup(root, outputDir).Some? ==> r == Some(root)
    ensures r.Some? ==> Lookup(r.value, outputDir).Some?
    ensures Lookup(root, outputDir).None? && r.Some? ==> Lookup(r.value, outputDir) == Some(Dir(map[]))
  {
    if Lookup(root, outputDir).Some? then Some(root)
    else
      var r := MkdirP(root, outputDir);
      if r.Some? then MkdirFresh(root, outputDir); r else r
  }

  /** The synchronous part of the `forEach`: `mkdirSync` of every directory
      entry, in order. The flag says whether one of them threw. */
  function MakeDirs(t: Node, outputDir: Path, es: seq<Entry>, strip: bool): (Node, bool)
    decreases |es|
  {
    if |es| == 0 then (t, false)
    else
      var (t1, failed) := MakeDirs(t, outputDir, es[..|es| - 1], strip);
      var e := es[|es| - 1];
      if !e.isDirectory then (t1, failed)
      else match MkdirP(t1, EntryPath(outputDir, e, strip))
        case None => (t1, true)
        case Some(t2) => (t2, failed)
  }

  /** The asynchronous part: the write stream of every file entry is opened
      (after all directories exist). The flag says whether one of them failed. */
  function OpenFiles(t: Node, outputDir: Path, es: seq<Entry>, strip: bool): (Node, bool)
    decreases |es|
  {
    if |es| == 0 then (t, false)
    else OpenStep(OpenFiles(t, outputDir, es[..|es| - 1], strip), outputDir, es[|es| - 1], strip)
  }

  /** Opening one entry's file, if it is a file entry. */
  function OpenStep(state: (Node, bool), outputDir: Path, e: Entry, strip: bool): (Node, bool) {
    if e.isDirectory then state
    else match CreateFile(state.0, EntryPath(outputDir, e, strip))
      case None => (state.0, true)
      case Some(t) => (t, state.1)
  }

  lemma OpenFilesSnoc(t: Node, outputDir: Path, es: seq<Entry>, e: Entry, strip: bool)
    ensures OpenFiles(t, outputDir, es + [e], strip) == OpenStep(OpenFiles(t, outputDir, es, strip), outputDir, e, strip)
  {
    assert (es + [e])[..|es|] == es;
  }

  /** Every directory entry among `es` is a directory of `t`. */
  predicate DirsExist(t: Node, outputDir: Path, es: seq<Entry>, strip: bool) {
    forall i :: 0 <= i < |es| && es[i].isDirectory ==> IsDirAt(t, EntryPath(outputDir, es[i], strip))
  }

  /** Every file entry among `es` is a file of `t`. */
  predicate FilesExist(t: Node, outputDir: Path, es: seq<Entry>, strip: bool) {
    forall i :: 0 <= i < |es| && !es[i].isDirectory ==> Lookup(t, EntryPath(outputDir, es[i], strip)) == Some(File)
  }

  /** When no `mkdirSync` threw, every directory entry exists afterwards. */
  lemma {:induction false} MakeDirsEffect(t: Node, outputDir: Path, es: seq<Entry>, strip: bool)
    ensures !MakeDirs(t, outputDir, es, strip).1 ==> DirsExist(MakeDirs(t, outputDir, es, strip).0, outputDir, es, strip)
    decreases |es|
  {
    if |es| > 0 && !MakeDirs(t, outputDir, es, strip).1 {
      var init, e := es[..|es| - 1], es[|es| - 1];
      MakeDirsEffect(t, outputDir, init, strip);
      var tp := MakeDirs(t, outputDir, init, strip).0;
      var t1 := MakeDirs(t, outputDir, es, strip).0;
      forall i | 0 <= i < |es| && es[i].isDirectory ensures IsDirAt(t1, EntryPath(outputDir, es[i], strip)) {
        if i < |es| - 1 {
          assert es[i] == init[i];
          if e.isDirectory {
            MkdirKeepsDirs(tp, EntryPath(outputDir, e, strip), EntryPath(outputDir, es[i], strip));
          }
        } else {
          MkdirMakesDir(tp, EntryPath(outputDir, e, strip));
        }
      }
    }
  }

  /** When every open succeeded, every file entry is a file afterwards and no
      directory was lost. */
  lemma {:induction false} OpenFilesEffect(t: Node, outputDir: Path, es: seq<Entry>, strip: bool)
    ensures var (t2, failed) := OpenFiles(t, outputDir, es, strip);
            !failed ==> FilesExist(t2, outputDir, es, strip) && forall q :: IsDirAt(t, q) ==> IsDirAt(t2, q)
    decreases |es|
  {
    if |es| > 0 && !OpenFiles(t, outputDir, es, strip).1 {
      var init, e := es[..|es| - 1], es[|es| - 1];
      OpenFilesEffect(t, outputDir, init, strip);
      var tp := OpenFiles(t, outputDir, init, strip).0;
      var t2 := OpenFiles(t, outputDir, es, strip).0;
      var pe := EntryPath(outputDir, e, strip);
      forall i | 0 <= i < |es| && !es[i].isDirectory ensures Lookup(t2, EntryPath(outputDir, es[i], strip)) == Some(File) {
        if i < |es| - 1 {
          assert es[i] == init[i];
          if !e.isDirectory {
            CreateFileKeepsFiles(tp, pe, EntryPath(outputDir, es[i], strip));
          }
        } else {
          CreateFileMakesFile(tp, pe);
        }
      }
      forall q | IsDirAt(t, q) ensures IsDirAt(t2, q) {
        if !e.isDirectory {
          CreateFileKeepsDirs(tp, pe, q);
        }
      }
    }
  }

  /** The settled outcome of `unzipFile` and the tree afterwards. */
  ghost function UnzipSpec(root: Node, archive: ArchiveFile, outputDir: Path,
                           ignoreFiles: seq<string>, policy: TopLevelPolicy): (Result<Extraction, UnzipError>, Node)
  {
    if archive.Missing? then (Failure(ArchiveNotFound), root)
    else match PrepareOutput(root, outputDir)
      case None => (Failure(OutputDirFailed), root)
      case Some(t0) =>
        if archive.Unreadable? then (Failure(ArchiveUnreadable), t0)
        else
          var kept := KeepEntries(archive.entries, ignoreFiles);
          var strip := ShouldStrip(TopLevelDirs(kept), policy, Basename(outputDir));
          var (t1, dirFailed) := MakeDirs(t0, outputDir, kept, strip);
          var (t2, fileFailed) := OpenFiles(t1, outputDir, kept, strip);
          var progress := Running(0, StreamChunks(kept));
          if dirFailed || fileFailed then (Failure(EntryFailed), t2)
          else (Success(Extraction(progress, Reaches(progress, TotalSize(kept)))), t2)
  }

  /** `unzipFile(zipFilePath, outputDir, ignoreFiles, removeTopLevel)`, with the
      entry streams run one after the other. */
  method UnzipFile(fs: FileSystem, archive: ArchiveFile, outputDir: Path,
                   ignoreFiles: seq<string>, removeTopLevel: TopLevelPolicy)
    returns (r: Result<Extraction, UnzipError>)
    modifies fs
    ensures (r, fs.root) == UnzipSpec(old(fs.root), archive, outputDir, ignoreFiles, removeTopLevel)
  {
    if archive.Missing? {
      return Failure(ArchiveNotFound);
    }
    var present := fs.Exists(outputDir);
    if !present {
      var ok := fs.Mkdir(outputDir);
      if !ok {
        return Failure(OutputDirFailed);
      }
    }
    assert PrepareOutput(old(fs.root), outputDir) == Some(fs.root);
    if archive.Unreadable? {
      return Failure(ArchiveUnreadable);
    }
    var kept := KeepEntries(archive.entries, ignoreFiles);
    var topLevelDirs := CollectTopLevelDirs(kept);
    var strip := DecideStrip(topLevelDirs, removeTopLevel, Basename(outputDir));
    var totalSize := TotalSize(kept);
    var bar := new ByteCounter(totalSize);
    var dirFailed := CreateDirectories(fs, outputDir, kept, strip);
    var fileFailed, progress, resolved := StreamFiles(fs, bar, outputDir, kept, strip);
    if dirFailed || fileFailed {
      return Failure(EntryFailed);
    }
    return Success(Extraction(progress, resolved));
  }

  /** The synchronous part of the `forEach`: each directory entry is created
      with `mkdirSync`; a throw rejects the promise but the other entries go on. */
  method CreateDirectories(fs: FileSystem, outputDir: Path, kept: seq<Entry>, strip: bool)
    returns (failed: bool)
    modifies fs
    ensures (fs.root, failed) == MakeDirs(old(fs.root), outputDir, kept, strip)
    ensures !failed ==> DirsExist(fs.root, outputDir, kept, strip)
  {
    failed := false;
    var i := 0;
    while i < |kept|
      invariant 0 <= i <= |kept|
      invariant (fs.root, failed) == MakeDirs(old(fs.root), outputDir, kept[..i], strip)
    {
      assert kept[..i + 1][..i] == kept[..i];
      if kept[i].isDirectory {
        var ok := fs.Mkdir(EntryPath(outputDir, kept[i], strip));
        failed := failed || !ok;
      }
      i := i + 1;
    }
    assert kept[..i] == kept;
    MakeDirsEffect(old(fs.root), outputDir, kept, strip);
  }

  /** The asynchronous part: each file entry's write stream is opened and its
      chunks are fed to the bar; `resolved` records whether some tick found
      the bar complete. */
  method StreamFiles(fs: FileSystem, bar: ByteCounter, outputDir: Path, kept: seq<Entry>, strip: bool)
    returns (failed: bool, progress: seq<nat>, resolved: bool)
    requires bar.curr == 0
    modifies fs, bar
    ensures (fs.root, failed) == OpenFiles(old(fs.root), outputDir, kept, strip)
    ensures !failed ==> FilesExist(fs.root, outputDir, kept, strip)
    ensures !failed ==> forall q :: IsDirAt(old(fs.root), q) ==> IsDirAt(fs.root, q)
    ensures progress == Running(0, StreamChunks(kept))
    ensures resolved <==> Reaches(progress, bar.total)
  {
    failed, progress, resolved := false, [], false;
    assert kept[..0] == [];
    var i := 0;
    while i < |kept|
      invariant 0 <= i <= |kept|
      invariant (fs.root, failed) == OpenFiles(old(fs.root), outputDir, kept[..i], strip)
      invariant bar.curr == Sum(StreamChunks(kept[..i]))
      invariant progress == Running(0, StreamChunks(kept[..i]))
      invariant resolved <==> Reaches(progress, bar.total)
    {
      assert kept[..i + 1] == kept[..i] + [kept[i]];
      failed, progress, resolved := StreamNext(fs, bar, outputDir, old(fs.root), kept[..i], kept[i], strip, failed, progress, resolved);
      i := i + 1;
    }
    assert kept[..i] == kept;
    OpenFilesEffect(old(fs.root), outputDir, kept, strip);
  }

  /** One turn of the asynchronous part, after the entries `done`. */
  method StreamNext(fs: FileSystem, bar: ByteCounter, outputDir: Path, ghost root0: Node, ghost done: seq<Entry>,
                    e: Entry, strip: bool, failed: bool, progress: seq<nat>, resolved: bool)
    returns (failed': bool, progress': seq<nat>, resolved': bool)
    requires (fs.root, failed) == OpenFiles(root0, outputDir, done, strip)
    requires bar.curr == Sum(StreamChunks(done))
    requires progress == Running(0, StreamChunks(done))
    requires resolved <==> Reaches(progress, bar.total)
    modifies fs, bar
    ensures (fs.root, failed') == OpenFiles(root0, outputDir, done + [e], strip)
    ensures bar.curr == Sum(StreamChunks(done + [e]))
    ensures progress' == Running(0, StreamChunks(done + [e]))
    ensures resolved' <==> Reaches(progress', bar.total)
  {
    StreamStep(done, e);
    OpenFilesSnoc(root0, outputDir, done, e, strip);
    var ok, reported, reached := StreamEntry(fs, bar, outputDir, e, strip);
    ReachesConcat(progress, reported, bar.total);
    failed' := failed || !ok;
    progress' := progress + reported;
    resolved' := resolved || reached;
  }

  lemma StreamStep(done: seq<Entry>, e: Entry)
    ensures Sum(StreamChunks(done + [e])) == Sum(StreamChunks(done)) + Sum(StreamChunks([e]))
    ensures Running(0, StreamChunks(done + [e]))
         == Running(0, StreamChunks(done)) + Running(Sum(StreamChunks(done)), StreamChunks([e]))
  {
    StreamChunksConcat(done, [e]);
    SumConcat(StreamChunks(done), StreamChunks([e]));
    RunningConcat(0, StreamChunks(done), StreamChunks([e]));
  }

  /** One entry of the asynchronous part: a file entry's stream is opened and
      its chunks ticked; a directory entry does nothing here. */
  method StreamEntry(fs: FileSystem, bar: ByteCounter, outputDir: Path, e: Entry, strip: bool)
    returns (ok: bool, reported: seq<nat>, reached: bool)
    modifies fs, bar
    ensures e.isDirectory ==> ok && fs.root == old(fs.root)
    ensures !e.isDirectory ==> (ok <==> CreateFile(old(fs.root), EntryPath(outputDir, e, strip)).Some?)
    ensures !e.isDirectory ==> fs.root == if ok then CreateFile(old(fs.root), EntryPath(outputDir, e, strip)).value else old(fs.root)
    ensures bar.curr == old(bar.curr) + Sum(StreamChunks([e]))
    ensures reported == Running(old(bar.curr), StreamChunks([e]))
    ensures reached <==> Reaches(reported, bar.total)
  {
    assert StreamChunks([e]) == (if e.isDirectory then [] else e.chunks) + StreamChunks([]);
    if e.isDirectory {
      assert StreamChunks([e]) == [];
      ok, reported, reached := true, [], false;
    } else {
      assert StreamChunks([e]) == e.chunks;
      ok := fs.OpenForWrite(EntryPath(outputDir, e, strip));
      reported, reached := FeedChunks(bar, e.chunks);
    }
  }

  // --------------------------------------------------------- what it promises

  /** A missing archive is rejected before anything happens to the tree. */
  lemma MissingArchiveRejected(root: Node, outputDir: Path, ignoreFiles: seq<string>, policy: TopLevelPolicy)
    ensures UnzipSpec(root, Missing, outputDir, ignoreFiles, policy) == (Failure(ArchiveNotFound), root)
  {
  }

  /** A settled extraction leaves every kept directory entry as a directory
      and every kept file entry as a file, at the paths the entries name. */
  lemma UnzipCreatesEntries(root: Node, archive: ArchiveFile, outputDir: Path,
                            ignoreFiles: seq<string>, policy: TopLevelPolicy)
    ensures var (r, t) := UnzipSpec(root, archive, outputDir, ignoreFiles, policy);
            r.Success? ==>
              && archive.Readable?
              && var kept := KeepEntries(archive.entries, ignoreFiles);
                 var strip := ShouldStrip(TopLevelDirs(kept), policy, Basename(outputDir));
                 DirsExist(t, outputDir, kept, strip) && FilesExist(t, outputDir, kept, strip)
  {
    if archive.Readable? && PrepareOutput(root, outputDir).Some? {
      var t0 := PrepareOutput(root, outputDir).value;
      var kept := KeepEntries(archive.entries, ignoreFiles);
      var strip := ShouldStrip(TopLevelDirs(kept), policy, Basename(outputDir));
      MakeDirsEffect(t0, outputDir, kept, strip);
      var t1 := MakeDirs(t0, outputDir, kept, strip).0;
      OpenFilesEffect(t1, outputDir, kept, strip);
    }
  }

  /** Resolution happens only inside the chunk handler: when no kept file
      entry delivers a chunk (every kept entry a directory, nothing kept, or
      only empty files) the promise never resolves, even with a zero total. */
  lemma NoChunkNeverResolves(root: Node, entries: seq<Entry>, outputDir: Path,
                             ignoreFiles: seq<string>, policy: TopLevelPolicy)
    requires StreamChunks(KeepEntries(entries, ignoreFiles)) == []
    ensures var (r, _) := UnzipSpec(root, Readable(entries), outputDir, ignoreFiles, policy);
            r.Success? ==> !r.value.resolved
  {
    var kept := KeepEntries(entries, ignoreFiles);
    assert Running(0, StreamChunks(kept)) == [];
    assert !Reaches(Running(0, StreamChunks(kept)), TotalSize(kept));
  }

  lemma {:induction false} DirectoriesHaveNoChunks(es: seq<Entry>)
    requires forall i :: 0 <= i < |es| ==> es[i].isDirectory
    ensures StreamChunks(es) == []
    decreases |es|
  {
    if |es| > 0 {
      DirectoriesHaveNoChunks(es[1..]);
    }
  }

  /** In particular an archive whose kept entries are all directories never resolves. */
  lemma AllDirectoriesNeverResolve(root: Node, entries: seq<Entry>, outputDir: Path,
                                   ignoreFiles: seq<string>, policy: TopLevelPolicy)
    requires forall i :: 0 <= i < |entries| ==> entries[i].isDirectory
    ensures var (r, _) := UnzipSpec(root, Readable(entries), outputDir, ignoreFiles, policy);
            r.Success? ==> !r.value.resolved
  {
    var kept := KeepEntries(entries, ignoreFiles);
    assert forall i :: 0 <= i < |kept| ==> kept[i] in entries;
    DirectoriesHaveNoChunks(kept);
  }

  /** A faithful archive: streams deliver non-empty chunks adding up to the
      entry size, and directories have size 0. */
  predicate WellFormed(es: seq<Entry>) {
    forall i :: 0 <= i < |es| ==>
      (es[i].isDirectory ==> es[i].size == 0) &&
      (!es[i].isDirectory ==> Sum(es[i].chunks) == es[i].size && forall k :: 0 <= k < |es[i].chunks| ==> es[i].chunks[k] > 0)
  }

  lemma {:induction false} WellFormedChunksMatchTotal(es: seq<Entry>)
    requires WellFormed(es)
    ensures Sum(StreamChunks(es)) == TotalSize(es)
    ensures forall k :: 0 <= k < |StreamChunks(es)| ==> StreamChunks(es)[k] > 0
    decreases |es|
  {
    if |es| > 0 {
      assert WellFormed(es[1..]) by {
        forall i | 0 <= i < |es| - 1 ensures es[1..][i] == es[i + 1] { }
      }
      WellFormedChunksMatchTotal(es[1..]);
      var head := if es[0].isDirectory then [] else es[0].chunks;
      SumConcat(head, StreamChunks(es[1..]));
    }
  }

  /** With positive chunks every value before the last is strictly below the final one. */
  lemma {:induction false} RunningStrict(start: nat, chunks: seq<nat>)
    requires forall k :: 0 <= k < |chunks| ==> chunks[k] > 0
    ensures forall j :: 0 <= j < |chunks| - 1 ==> Running(start, chunks)[j] < start + Sum(chunks)
    decreases |chunks|
  {
    if |chunks| > 0 {
      RunningStrict(start + chunks[0], chunks[1..]);
      assert Running(start, chunks) == [start + chunks[0]] + Running(start + chunks[0], chunks[1..]);
      if |chunks| > 1 {
        assert Sum(chunks[1..]) >= chunks[1] > 0 by {
          assert chunks[1..][0] == chunks[1];
        }
      }
    }
  }

  /** For a faithful archive with at least one byte to write, the counter
      reaches the total exactly at the last chunk: success is signalled, never
      before every byte has been counted, and the progress never passes the total. */
  lemma WellFormedResolvesAtEnd(entries: seq<Entry>, ignoreFiles: seq<string>)
    requires WellFormed(KeepEntries(entries, ignoreFiles))
    requires StreamChunks(KeepEntries(entries, ignoreFiles)) != []
    ensures var kept := KeepEntries(entries, ignoreFiles);
            var progress := Running(0, StreamChunks(kept));
            && Reaches(progress, TotalSize(kept))
            && progress[|progress| - 1] == TotalSize(kept)
            && (forall j :: 0 <= j < |progress| - 1 ==> progress[j] < TotalSize(kept))
            && (forall j :: 0 <= j < |progress| ==> progress[j] <= TotalSize(kept))
  {
    var kept := KeepEntries(entries, ignoreFiles);
    var chunks := StreamChunks(kept);
    WellFormedChunksMatchTotal(kept);
    RunningMonotone(0, chunks);
    RunningStrict(0, chunks);
    var progress := Running(0, chunks);
    assert progress[|progress| - 1] >= TotalSize(kept);
  }
}
