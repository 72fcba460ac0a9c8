/** The directory-emptiness probe of sdk/_common/path.ts. The directory read
    itself is abstracted to its outcome: a listing of names, or a read error
    (missing path, not a directory). */
module PathProbe {

  /** What `readdir` / `readdirSync` produces for a path. */
  datatype ReadDir = Listing(names: seq<string>) | ReadError(message: string)

  /** The arguments the callback form passes: `callback(err)` or `callback(null, isEmpty)`. */
  datatype EmptyCallback = Errored(message: string) | Answered(isEmpty: bool)

  /** `files.filter((file) => !ignoreNames.includes(file))`: the names that are
      not ignored, in listing order. */
  function Unignored(files: seq<string>, ignoreNames: seq<string>): (kept: seq<string>)
    ensures forall f :: f in kept <==> f in files && f !in ignoreNames
    ensures |kept| <= |files|
  {
    if |files| == 0 then []
    else (if files[0] in ignoreNames then [] else [files[0]]) + Unignored(files[1..], ignoreNames)
  }

  /** `isDirectoryEmptySync`: a directory is empty when every listed name is
      ignored; a failed read reports "not empty". */
  function IsDirectoryEmptySync(dir: ReadDir, ignoreNames: seq<string>): (empty: bool)
    ensures empty <==> dir.Listing? && forall i :: 0 <= i < |dir.names| ==> dir.names[i] in ignoreNames
  {
    match dir
    case ReadError(_) => false
    case Listing(files) =>
      var kept := Unignored(files, ignoreNames);
      assert forall i :: 0 <= i < |files| && files[i] !in ignoreNames ==> files[i] in kept;
      assert |kept| > 0 ==> kept[0] in kept;
      |kept| == 0
  }

  /** `isDirectoryEmpty`, the callback form: a read error is passed on and no
      boolean is reported; otherwise it reports what the sync form returns. */
  function IsDirectoryEmpty(dir: ReadDir, ignoreNames: seq<string>): (cb: EmptyCallback)
    ensures cb.Errored? <==> dir.ReadError?
    ensures dir.ReadError? ==> cb == Errored(dir.message)
    ensures cb.Answered? ==> cb.isEmpty == IsDirectoryEmptySync(dir, ignoreNames)
  {
    match dir
    case ReadError(err) => Errored(err)
    case Listing(files) => Answered(|Unignored(files, ignoreNames)| == 0)
  }

  /** Ignored names may be added to or removed from a listing anywhere without
      changing the answer (membership is exact string equality). */
  lemma IgnoredNamesIrrelevant(before: seq<string>, extra: seq<string>, after: seq<string>, ignoreNames: seq<string>)
    requires forall i :: 0 <= i < |extra| ==> extra[i] in ignoreNames
    ensures IsDirectoryEmptySync(Listing(before + extra + after), ignoreNames)
         == IsDirectoryEmptySync(Listing(before + after), ignoreNames)
  {
    var long, short := before + extra + after, before + after;
    if IsDirectoryEmptySync(Listing(short), ignoreNames) {
      forall i | 0 <= i < |long| ensures long[i] in ignoreNames {
        if i < |before| {
          assert long[i] == short[i];
        } else if i >= |before| + |extra| {
          assert long[i] == short[i - |extra|];
        }
      }
    }
    if IsDirectoryEmptySync(Listing(long), ignoreNames) {
      forall i | 0 <= i < |short| ensures short[i] in ignoreNames {
        if i < |before| {
          assert short[i] == long[i];
        } else {
          assert short[i] == long[i + |extra|];
        }
      }
    }
  }

  /** An empty listing is empty whatever is ignored; with the default (empty)
      ignore list the answer is exactly "the listing has no names". */
  lemma EmptyListingAndDefaultIgnore(files: seq<string>, ignoreNames: seq<string>)
    ensures IsDirectoryEmptySync(Listing([]), ignoreNames)
    ensures IsDirectoryEmptySync(Listing(files), []) <==> |files| == 0
  {
    if |files| > 0 {
      assert files[0] !in [];
    }
  }

  /** A failed read makes the sync form answer "not empty" and the callback
      form report the error, whatever is ignored. */
  lemma ReadErrorIsNotEmpty(message: string, ignoreNames: seq<string>)
    ensures !IsDirectoryEmptySync(ReadError(message), ignoreNames)
    ensures IsDirectoryEmpty(ReadError(message), ignoreNames) == Errored(message)
  {
  }
}
