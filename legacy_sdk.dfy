/** The earlier copy of `ProcessSDK` in sdk/processSDK.ts. Its `init` and
    `check_version_dir` are the same code as in sdk/process/index.ts, so they
    are modelled by the same steps and meet the same specification; the
    differences are that the constructor starts `init` itself and that
    `process_sdk` is only an extraction with a progress callback. */
module LegacySdk {
  import opened Wrappers
  import opened FsTree
  import opened Zip
  import opened SdkNames
  import opened SdkProcess

  class LegacyProcessSdk {
    const fs: FileSystem
    const tempPath: Path
    const skips: seq<string>
    const sdkRoot: Path
    const staged: string -> StagedFile

    /** The staging listing `init` worked through, and where it ended. */
    ghost var listing: seq<string>
    ghost var outcome: IngestState

    /** `new ProcessSDK(temp_path, skips)`: the fields are set and `init` is
        started. Nothing else runs afterwards, so the model lets it finish. */
    constructor(fs: FileSystem, tempPath: Path, skips: seq<string>, sdkRoot: Path, staged: string -> StagedFile)
      modifies fs
      ensures this.fs == fs && this.tempPath == tempPath && this.skips == skips
      ensures this.sdkRoot == sdkRoot && this.staged == staged
      ensures outcome.root == fs.root
      ensures !IsDirAt(old(fs.root), tempPath) ==> outcome == IngestState(old(fs.root), [], Aborted(ListingFailed))
      ensures IsDirAt(old(fs.root), tempPath) ==>
                && Distinct(listing)
                && (forall x :: x in listing <==> x in Lookup(old(fs.root), tempPath).value.children)
                && outcome == IngestAll(Setup(tempPath, sdkRoot, skips, staged), IngestState(old(fs.root), [], Ok), listing)
    {
      this.fs := fs;
      this.tempPath := tempPath;
      this.skips := skips;
      this.sdkRoot := sdkRoot;
      this.staged := staged;
      new;
      var files, records, status := Ingest(fs, Setup(tempPath, sdkRoot, skips, staged));
      listing := files;
      outcome := IngestState(fs.root, records, status);
    }

    /** `check_version_dir`, the same as in sdk/process/index.ts. */
    method CheckVersionDir(info: SdkInfo) returns (r: Option<VersionDir>)
      modifies fs
      ensures (r, fs.root) == CheckVersionDirSpec(old(fs.root), sdkRoot, skips, info)
    {
      r := CheckVersionDirOn(fs, sdkRoot, skips, info);
    }

    /** `process_sdk(file_path, target_path, md5)`: the archive is extracted
        with "always" and this copy's skips; the callback only moves a bar. */
    method ExtractWithProgress(archive: ArchiveFile, targetPath: Path)
      returns (r: Result<Extraction, UnzipError>)
      modifies fs
      ensures (r, fs.root) == UnzipSpec(old(fs.root), archive, targetPath, skips, Always)
    {
      r := UnzipFile(fs, archive, targetPath, skips, Always);
    }
  }
}
