/** What the normalization pass `process_sdk` of sdk/process/index.ts does to
    the SDK tree, as functions on the tree: inside every android/ios platform
    folder, each version folder that is not yet done keeps only its `SDK`
    entry, whose contents are then lifted into the version folder. */
module SdkNormalize {
  import opened Wrappers
  import opened Strings
  import opened FsTree

  /** The name of the entry kept in a version folder. */
  const SdkEntry := "SDK"

  /** The folder whose presence marks a version folder as already processed. */
  const LibsMarker := "libs"

  /** The platform filter: not skipped, and "android" or "ios" once lower-cased. */
  predicate IsPlatformName(name: string, skips: seq<string>) {
    name !in skips && (ToLower(name) == "android" || ToLower(name) == "ios")
  }

  /** Some entry of the folder is "libs" in some letter case. */
  predicate IsDone(c: map<string, Node>) {
    exists k :: k in c && ToLower(k) == LibsMarker
  }

  /** The same test on a listing: `files.map(item => item.toLowerCase()).includes("libs")`. */
  predicate ListsLibs(files: seq<string>) {
    exists i :: 0 <= i < |files| && ToLower(files[i]) == LibsMarker
  }

  /** A listing of exactly the folder's names marks it done exactly when the folder is done. */
  lemma ListsLibsIsDone(files: seq<string>, c: map<string, Node>)
    requires forall x :: x in files <==> x in c
    ensures ListsLibs(files) <==> IsDone(c)
  {
    if IsDone(c) {
      var k :| k in c && ToLower(k) == LibsMarker;
      var i :| 0 <= i < |files| && files[i] == k;
    }
  }

  /** The entries left after every name other than `SDK` has been removed. */
  function PruneToSdk(c: map<string, Node>): (r: map<string, Node>)
    ensures r.Keys <= {SdkEntry} && r.Keys == c.Keys * {SdkEntry}
    ensures forall k :: k in r ==> r[k] == c[k]
  {
    map k | k in c && k == SdkEntry :: c[k]
  }

  /** `moveContentsUp(version_path)` as `process_sdk` calls it, on a folder
      that holds at most the entry `SDK`. Its body is not part of this model;
      this is the contract assumed for it: when that entry is a folder, its
      entries become the folder's entries and it disappears; otherwise
      nothing changes. */
  function LiftSdk(n: Node): Node {
    match n
    case File => n
    case Dir(c) => if c.Keys == {SdkEntry} && c[SdkEntry].Dir? then c[SdkEntry] else n
  }

  /** One version folder: left alone when done, otherwise pruned and lifted.
      A file in the platform folder is not visited. */
  function NormalizeVersion(n: Node): Node {
    match n
    case File => n
    case Dir(c) => if IsDone(c) then n else LiftSdk(Dir(PruneToSdk(c)))
  }

  /** The entries of a platform folder after the versions named in `done` are normalized. */
  function NormalizeVersions(c: map<string, Node>, done: set<string>): map<string, Node> {
    map k | k in c :: if k in done then NormalizeVersion(c[k]) else c[k]
  }

  /** The version names visited: those not skipped. */
  function VisitedVersions(c: map<string, Node>, skips: seq<string>): set<string> {
    set k | k in c.Keys && k !in skips
  }

  /** One platform folder: every version entry not skipped is normalized. */
  function NormalizePlatform(n: Node, skips: seq<string>): Node {
    match n
    case File => n
    case Dir(c) => Dir(NormalizeVersions(c, VisitedVersions(c, skips)))
  }

  /** The entries of the SDK root after the platforms named in `done` are normalized. */
  function NormalizePlatforms(c: map<string, Node>, done: set<string>, skips: seq<string>): map<string, Node> {
    map k | k in c :: if k in done then NormalizePlatform(c[k], skips) else c[k]
  }

  /** The platform names visited. */
  function VisitedPlatforms(c: map<string, Node>, skips: seq<string>): set<string> {
    set k | k in c.Keys && IsPlatformName(k, skips)
  }

  /** The SDK root folder after the pass. */
  function NormalizeRoot(n: Node, skips: seq<string>): Node {
    match n
    case File => n
    case Dir(c) => Dir(NormalizePlatforms(c, VisitedPlatforms(c, skips), skips))
  }

  /** The whole pass on the filesystem: None when the SDK root cannot be
      listed (`readdirSync` throws before anything is changed). */
  function NormalizeAt(root: Node, sdkRoot: Path, skips: seq<string>): (r: Option<Node>)
    ensures r.Some? <==> IsDirAt(root, sdkRoot)
    ensures r.Some? ==> IsDirAt(r.value, sdkRoot)
  {
    if IsDirAt(root, sdkRoot) then
      LookupUpdate(root, sdkRoot, NormalizeRoot(Lookup(root, sdkRoot).value, skips));
      Some(Update(root, sdkRoot, NormalizeRoot(Lookup(root, sdkRoot).value, skips)))
    else None
  }

  // ------------------------------------------------------------ properties

  /** What one version folder becomes: unchanged when it already lists "libs"
      (any case); otherwise the contents of its `SDK` folder, or just its
      `SDK` file, or nothing at all when it had no `SDK` entry. */
  lemma VersionOutcome(c: map<string, Node>)
    ensures IsDone(c) ==> NormalizeVersion(Dir(c)) == Dir(c)
    ensures !IsDone(c) && SdkEntry in c && c[SdkEntry].Dir? ==> NormalizeVersion(Dir(c)) == c[SdkEntry]
    ensures !IsDone(c) && SdkEntry in c && c[SdkEntry].File? ==> NormalizeVersion(Dir(c)) == Dir(map[SdkEntry := File])
    ensures !IsDone(c) && SdkEntry !in c ==> NormalizeVersion(Dir(c)) == Dir(map[])
  {
    var r := PruneToSdk(c);
    if SdkEntry in c {
      assert r.Keys == {SdkEntry};
      assert r == map[SdkEntry := c[SdkEntry]];
    } else {
      assert r == map[];
    }
  }

  /** The result of the pass at `sdkRoot/platform/version`, for every visited
      version folder: `NormalizeVersion` of what was there before. */
  lemma VisitedVersionNormalized(root: Node, sdkRoot: Path, skips: seq<string>, platform: string, version: string)
    requires IsDirAt(root, sdkRoot + [platform]) && IsPlatformName(platform, skips)
    requires Lookup(root, sdkRoot + [platform, version]).Some? && version !in skips
    ensures NormalizeAt(root, sdkRoot, skips).Some?
    ensures Lookup(NormalizeAt(root, sdkRoot, skips).value, sdkRoot + [platform, version])
         == Some(NormalizeVersion(Lookup(root, sdkRoot + [platform, version]).value))
  {
    PlatformPathsOf(root, sdkRoot, platform, version);
    var t := Lookup(root, sdkRoot).value;
    var t' := NormalizeRoot(t, skips);
    UpdateNested(root, sdkRoot, [platform], File);
    assert Lookup(t, [platform]) == Lookup(root, sdkRoot + [platform]);
    var pn := t.children[platform];
    assert pn.Dir? && platform in VisitedPlatforms(t.children, skips);
    assert t'.children[platform] == NormalizePlatform(pn, skips);
    assert Lookup(t, [platform, version]) == Lookup(pn, [version]);
    assert version in VisitedVersions(pn.children, skips);
    assert [platform, version][1..] == [version] && [version][1..] == [];
    assert Lookup(t'.children[platform], [version]) == Some(NormalizeVersion(pn.children[version]));
    assert Lookup(t', [platform, version]) == Some(NormalizeVersion(pn.children[version]));
    assert Lookup(pn, [version]).Some?;
    assert version in pn.children;
    assert Lookup(pn, [version]) == Some(pn.children[version]);
    LookupUpdate(root, sdkRoot, t');
    UpdateNested(Update(root, sdkRoot, t'), sdkRoot, [platform, version], File);
    assert NormalizeAt(root, sdkRoot, skips).value == Update(root, sdkRoot, t');
  }

  /** Lookups below `sdkRoot` split into a lookup of `sdkRoot` and one below it. */
  lemma PlatformPathsOf(root: Node, sdkRoot: Path, platform: string, version: string)
    requires Lookup(root, sdkRoot + [platform]).Some?
    ensures IsDirAt(root, sdkRoot)
    ensures Lookup(root, sdkRoot + [platform, version])
         == Lookup(Lookup(root, sdkRoot).value, [platform, version])
  {
    PrefixExists(root, sdkRoot, [platform]);
    UpdateNested(root, sdkRoot, [platform, version], File);
    UpdateNested(root, sdkRoot, [platform], File);
  }

  /** When `p + q` exists with `q` non-empty, `p` exists and is a folder. */
  lemma {:induction false} PrefixExists(n: Node, p: Path, q: Path)
    requires |q| > 0 && Lookup(n, p + q).Some?
    ensures IsDirAt(n, p)
    decreases |p|
  {
    if |p| > 0 {
      assert (p + q)[0] == p[0] && (p + q)[1..] == p[1..] + q;
      PrefixExists(n.children[p[0]], p[1..], q);
    }
  }

  /** Nothing outside the SDK root changes: any path that neither lies below
      `sdkRoot` nor leads to it finds the same node after the pass. */
  lemma OutsideSdkRootUnchanged(root: Node, sdkRoot: Path, skips: seq<string>, q: Path)
    requires IsDirAt(root, sdkRoot)
    requires !(|sdkRoot| <= |q| && q[..|sdkRoot|] == sdkRoot)
    requires !(|q| <= |sdkRoot| && sdkRoot[..|q|] == q)
    ensures Lookup(NormalizeAt(root, sdkRoot, skips).value, q) == Lookup(root, q)
  {
    LookupUpdateElsewhere(root, sdkRoot, NormalizeRoot(Lookup(root, sdkRoot).value, skips), q);
  }

  /** Replacing the node at `p` leaves every path unrelated to `p` alone. */
  lemma {:induction false} LookupUpdateElsewhere(n: Node, p: Path, sub: Node, q: Path)
    requires !(|p| <= |q| && q[..|p|] == p)
    requires !(|q| <= |p| && p[..|q|] == q)
    ensures Lookup(Update(n, p, sub), q) == Lookup(n, q)
    decreases |p|
  {
    assert |p| > 0 && |q| > 0;
    match n
    case File =>
    case Dir(c) =>
      if p[0] in c && p[0] == q[0] {
        PrefixTail(p, q);
        PrefixTail(q, p);
        LookupUpdateElsewhere(c[p[0]], p[1..], sub, q[1..]);
      }
  }

  /** With equal first elements, `p` is a prefix of `q` exactly when their tails are. */
  lemma PrefixTail(p: Path, q: Path)
    requires |p| > 0 && |q| > 0 && p[0] == q[0]
    ensures (|p| <= |q| && q[..|p|] == p) <==> (|p| - 1 <= |q| - 1 && q[1..][..|p| - 1] == p[1..])
  {
    if |p| <= |q| {
      assert q[..|p|] == [q[0]] + q[1..][..|p| - 1];
      assert p == [p[0]] + p[1..];
    }
  }

  /** Inside the SDK root only visited platform folders change, and inside
      those only the version folders that are not skipped. */
  lemma UnvisitedEntriesUnchanged(root: Node, sdkRoot: Path, skips: seq<string>, name: string, version: string)
    requires IsDirAt(root, sdkRoot) && name in Lookup(root, sdkRoot).value.children
    ensures var after := NormalizeAt(root, sdkRoot, skips).value;
            !IsPlatformName(name, skips) ==> Lookup(after, sdkRoot + [name]) == Lookup(root, sdkRoot + [name])
    ensures var after := NormalizeAt(root, sdkRoot, skips).value;
            version in skips ==> Lookup(after, sdkRoot + [name, version]) == Lookup(root, sdkRoot + [name, version])
  {
    var t := Lookup(root, sdkRoot).value;
    var t' := NormalizeRoot(t, skips);
    LookupUpdate(root, sdkRoot, t');
    UpdateNested(root, sdkRoot, [name], File);
    UpdateNested(Update(root, sdkRoot, t'), sdkRoot, [name], File);
    UpdateNested(root, sdkRoot, [name, version], File);
    UpdateNested(Update(root, sdkRoot, t'), sdkRoot, [name, version], File);
  }

  // ------------------------------------------------------------ idempotence

  /** The version folders a visit leaves as they are: a file, a folder that
      lists "libs", or a folder holding nothing but, at most, an `SDK` file. */
  predicate Settled(r: Node) {
    r.File? || IsDone(r.children)
    || (r.children.Keys <= {SdkEntry} && (SdkEntry in r.children ==> r.children[SdkEntry].File?))
  }

  /** The fixed points of one visit are exactly the settled folders. A folder
      holding an `SDK` folder is never one: it cannot be its own child. */
  lemma VersionFixedPoint(r: Node)
    ensures NormalizeVersion(r) == r <==> Settled(r)
  {
    if r.Dir? && !IsDone(r.children) {
      var c := r.children;
      VersionOutcome(c);
      if SdkEntry in c && c[SdkEntry].File? && NormalizeVersion(r) == r {
        assert c == map[SdkEntry := File];
      } else if SdkEntry !in c && NormalizeVersion(r) == r {
        assert c == map[];
      }
    }
  }

  /** A second visit leaves a version folder alone exactly when the first one
      left it settled: a file, a folder listing "libs", an empty folder, or a
      folder holding only an `SDK` file. */
  lemma VersionRerun(n: Node)
    ensures NormalizeVersion(NormalizeVersion(n)) == NormalizeVersion(n) <==> Settled(NormalizeVersion(n))
  {
    VersionFixedPoint(NormalizeVersion(n));
  }

  /** The done marker is a heuristic: a version folder whose `SDK` folder holds
      no "libs" entry is pruned again by a second pass, which empties it. */
  lemma RerunNotIdempotent()
    ensures var n := Dir(map[SdkEntry := Dir(map["lib" := File])]);
            NormalizeVersion(n) == Dir(map["lib" := File])
            && NormalizeVersion(NormalizeVersion(n)) == Dir(map[])
            && NormalizeVersion(NormalizeVersion(n)) != NormalizeVersion(n)
  {
    var inner := map["lib" := File];
    var c := map[SdkEntry := Dir(inner)];
    assert !IsDone(c) by {
      assert ToLower(SdkEntry) == "sdk";
    }
    VersionOutcome(c);
    assert !IsDone(inner) by {
      assert ToLower("lib") == "lib";
    }
    VersionOutcome(inner);
    assert "lib" in NormalizeVersion(Dir(c)).children;
  }

  /** Settled without "libs": a folder with no `SDK` entry is emptied by the
      first visit, and the second leaves the empty folder alone. */
  lemma EmptiedIsSettled()
    ensures var n := Dir(map["readme.txt" := File]);
            NormalizeVersion(n) == Dir(map[])
            && !IsDone(NormalizeVersion(n).children)
            && NormalizeVersion(NormalizeVersion(n)) == NormalizeVersion(n)
  {
    var c := map["readme.txt" := File];
    assert !IsDone(c) by {
      assert |"readme.txt"| != |LibsMarker|;
    }
    VersionOutcome(c);
    VersionFixedPoint(Dir(map[]));
  }

  /** Every version folder the pass visits comes out settled. */
  predicate SettlesInOnePass(t: Node, skips: seq<string>) {
    t.Dir? ==>
      forall p :: p in t.children && IsPlatformName(p, skips) && t.children[p].Dir? ==>
        SettlesPlatform(t.children[p], skips)
  }

  /** Every version folder visited in this platform folder comes out settled. */
  predicate SettlesPlatform(n: Node, skips: seq<string>)
    requires n.Dir?
  {
    forall v :: v in n.children && v !in skips ==> Settled(NormalizeVersion(n.children[v]))
  }

  /** A second pass over the SDK root changes nothing exactly when every
      visited version folder came out of the first settled. */
  lemma RootRerun(t: Node, skips: seq<string>)
    ensures NormalizeRoot(NormalizeRoot(t, skips), skips) == NormalizeRoot(t, skips)
            <==> SettlesInOnePass(t, skips)
  {
    if t.Dir? {
      var c := t.children;
      var once := NormalizeRoot(t, skips).children;
      var twice := NormalizeRoot(NormalizeRoot(t, skips), skips).children;
      assert once.Keys == c.Keys;
      forall p | p in c && IsPlatformName(p, skips) && c[p].Dir?
        ensures twice[p] == once[p] <==> SettlesPlatform(c[p], skips)
      {
        PlatformRerun(c[p], skips);
      }
      if SettlesInOnePass(t, skips) {
        forall p | p in c ensures twice[p] == once[p] {
          if IsPlatformName(p, skips) && c[p].Dir? {
            assert SettlesPlatform(c[p], skips);
          }
        }
        assert Dir(twice) == Dir(once);
      }
      if NormalizeRoot(NormalizeRoot(t, skips), skips) == NormalizeRoot(t, skips) {
        forall p | p in c && IsPlatformName(p, skips) && c[p].Dir?
          ensures SettlesPlatform(c[p], skips)
        {
          assert twice[p] == once[p];
        }
      }
    }
  }

  /** The same for one platform folder. */
  lemma PlatformRerun(n: Node, skips: seq<string>)
    requires n.Dir?
    ensures NormalizePlatform(NormalizePlatform(n, skips), skips) == NormalizePlatform(n, skips)
            <==> SettlesPlatform(n, skips)
  {
    var c := n.children;
    var once := NormalizePlatform(n, skips).children;
    var twice := NormalizePlatform(NormalizePlatform(n, skips), skips).children;
    assert once.Keys == c.Keys;
    forall v | v in c && v !in skips
      ensures twice[v] == once[v] <==> Settled(NormalizeVersion(c[v]))
    {
      VersionRerun(c[v]);
    }
    if SettlesPlatform(n, skips) {
      forall v | v in c ensures twice[v] == once[v] {
        if v !in skips {
          assert Settled(NormalizeVersion(c[v]));
        }
      }
      assert Dir(twice) == Dir(once);
    }
    if NormalizePlatform(NormalizePlatform(n, skips), skips) == NormalizePlatform(n, skips) {
      forall v | v in c && v !in skips ensures Settled(NormalizeVersion(c[v])) {
        assert twice[v] == once[v];
      }
    }
  }

  /** Neither `SDK` nor `readme.txt` is `libs` in any case: their lengths differ. */
  lemma LibsScenarioNotDone(sdk: map<string, Node>, extra: Node)
    ensures !IsDone(map[SdkEntry := Dir(sdk), "readme.txt" := extra])
  {
    var c := map[SdkEntry := Dir(sdk), "readme.txt" := extra];
    forall k | k in c ensures ToLower(k) != LibsMarker {
      assert |k| != |LibsMarker|;
    }
  }

  /** The scenario of an archive whose `SDK` folder holds `libs/foo.so`: the
      version folder ends up with exactly `libs`, and a second pass keeps it. */
  lemma LibsScenario(extra: Node)
    ensures var before := Dir(map[SdkEntry := Dir(map[LibsMarker := Dir(map["foo.so" := File])]),
                                  "readme.txt" := extra]);
            var after := Dir(map[LibsMarker := Dir(map["foo.so" := File])]);
            NormalizeVersion(before) == after && NormalizeVersion(after) == after
  {
    var libs := Dir(map["foo.so" := File]);
    var sdk := map[LibsMarker := libs];
    var c := map[SdkEntry := Dir(sdk), "readme.txt" := extra];
    LibsScenarioNotDone(sdk, extra);
    VersionOutcome(c);
    assert ToLower(LibsMarker) == LibsMarker;
    assert IsDone(sdk);
  }
}
