/** The filesystem the SDK tools work on, reduced to a tree of directories and
    files held in one mutable object. Paths are absolute and given as their
    segments; `Resolve` plays the part of Node's `path.join`. File contents,
    links, permissions and timestamps are not part of the model. */
module FsTree {
  import opened Wrappers
  import PathProbe

  datatype Node = File | Dir(children: map<string, Node>)

  /** An absolute path, as the list of names below "/". */
  type Path = seq<string>

  /** The node at `p` below `n`, if every step of the path exists. */
  function Lookup(n: Node, p: Path): Option<Node>
    decreases |p|
  {
    if |p| == 0 then Some(n)
    else match n
      case File => None
      case Dir(c) => if p[0] in c then Lookup(c[p[0]], p[1..]) else None
  }

  predicate IsDirAt(n: Node, p: Path) {
    Lookup(n, p).Some? && Lookup(n, p).value.Dir?
  }

  /** `path.join(base, ...)` over already split segments: empty and "." segments
      are dropped and ".." removes the previous segment (it stays at "/"). */
  function Resolve(base: Path, rel: seq<string>): (r: Path)
    decreases |rel|
  {
    if |rel| == 0 then base
    else if rel[0] == "" || rel[0] == "." then Resolve(base, rel[1..])
    else if rel[0] == ".." then Resolve(if |base| == 0 then [] else base[..|base| - 1], rel[1..])
    else Resolve(base + [rel[0]], rel[1..])
  }

  /** Resolving plain names (no "", "." or "..") just appends them. */
  lemma {:induction false} ResolvePlain(base: Path, rel: seq<string>)
    requires forall i :: 0 <= i < |rel| ==> rel[i] != "" && rel[i] != "." && rel[i] != ".."
    ensures Resolve(base, rel) == base + rel
    decreases |rel|
  {
    if |rel| > 0 {
      ResolvePlain(base + [rel[0]], rel[1..]);
      assert base + [rel[0]] + rel[1..] == base + rel;
    }
  }

  /** `fs.mkdirSync(p, { recursive: true })`: creates the missing directories
      along `p`; fails (None) when a step of the path, or `p` itself, is a file. */
  function MkdirP(n: Node, p: Path): (r: Option<Node>)
    decreases |p|
  {
    match n
    case File => None
    case Dir(c) =>
      if |p| == 0 then Some(n)
      else
        var child := if p[0] in c then c[p[0]] else Dir(map[]);
        match MkdirP(child, p[1..])
        case None => None
        case Some(c') => Some(Dir(c[p[0] := c']))
  }

  /** Opening `p` for writing (`fs.createWriteStream`): the parent must be an
      existing directory and `p` must not be a directory; the file is created
      or truncated. */
  function CreateFile(n: Node, p: Path): (r: Option<Node>)
    decreases |p|
  {
    match n
    case File => None
    case Dir(c) =>
      if |p| == 0 then None
      else if |p| == 1 then (if p[0] in c && c[p[0]].Dir? then None else Some(Dir(c[p[0] := File])))
      else if p[0] in c then
        match CreateFile(c[p[0]], p[1..])
        case None => None
        case Some(c') => Some(Dir(c[p[0] := c']))
      else None
  }

  /** Replaces the node at `p` by `sub` when `p` exists; otherwise nothing changes. */
  function Update(n: Node, p: Path, sub: Node): Node
    decreases |p|
  {
    if |p| == 0 then sub
    else match n
      case File => n
      case Dir(c) => if p[0] in c then Dir(c[p[0] := Update(c[p[0]], p[1..], sub)]) else n
  }

  /** The directory `n` without its entry `name` (`rmSync` / `unlinkSync` of a child). */
  function RemoveChild(n: Node, name: string): Node {
    match n
    case File => n
    case Dir(c) => Dir(c - {name})
  }

  lemma {:induction false} LookupUpdate(n: Node, p: Path, sub: Node)
    requires Lookup(n, p).Some?
    ensures Lookup(Update(n, p, sub), p) == Some(sub)
    decreases |p|
  {
    if |p| > 0 {
      LookupUpdate(n.children[p[0]], p[1..], sub);
    }
  }

  /** Writing back what is already there changes nothing. */
  lemma {:induction false} UpdateSame(n: Node, p: Path)
    requires Lookup(n, p).Some?
    ensures Update(n, p, Lookup(n, p).value) == n
    decreases |p|
  {
    if |p| > 0 {
      UpdateSame(n.children[p[0]], p[1..]);
    }
  }

  /** The second of two replacements at the same path wins. */
  lemma {:induction false} UpdateUpdate(n: Node, p: Path, a: Node, b: Node)
    requires Lookup(n, p).Some?
    ensures Update(Update(n, p, a), p, b) == Update(n, p, b)
    decreases |p|
  {
    if |p| > 0 {
      UpdateUpdate(n.children[p[0]], p[1..], a, b);
    }
  }

  /** A replacement below `p` is a replacement at `p` of the updated subtree. */
  lemma {:induction false} UpdateNested(n: Node, p: Path, q: Path, sub: Node)
    requires Lookup(n, p).Some?
    ensures Lookup(n, p + q) == Lookup(Lookup(n, p).value, q)
    ensures Update(n, p + q, sub) == Update(n, p, Update(Lookup(n, p).value, q, sub))
    decreases |p|
  {
    if |p| == 0 {
      assert p + q == q;
    } else {
      var c := n.children;
      assert (p + q)[0] == p[0] && (p + q)[1..] == p[1..] + q;
      UpdateNested(c[p[0]], p[1..], q, sub);
      assert Lookup(n, p + q) == Lookup(c[p[0]], p[1..] + q);
      assert Update(n, p + q, sub) == Dir(c[p[0] := Update(c[p[0]], p[1..] + q, sub)]);
    }
  }

  /** A successful `mkdir -p` leaves a directory at the path. */
  lemma {:induction false} MkdirMakesDir(n: Node, p: Path)
    requires MkdirP(n, p).Some?
    ensures IsDirAt(MkdirP(n, p).value, p)
    decreases |p|
  {
    if |p| > 0 {
      var c := n.children;
      var child := if p[0] in c then c[p[0]] else Dir(map[]);
      MkdirMakesDir(child, p[1..]);
    }
  }

  /** `mkdir -p` of an existing directory changes nothing. */
  lemma {:induction false} MkdirExisting(n: Node, p: Path)
    requires IsDirAt(n, p)
    ensures MkdirP(n, p) == Some(n)
    decreases |p|
  {
    if |p| > 0 {
      MkdirExisting(n.children[p[0]], p[1..]);
      assert n.children[p[0] := n.children[p[0]]] == n.children;
    }
  }

  /** `mkdir -p` of a missing path creates it as an empty directory. */
  lemma {:induction false} MkdirFresh(n: Node, p: Path)
    requires MkdirP(n, p).Some? && Lookup(n, p).None?
    ensures Lookup(MkdirP(n, p).value, p) == Some(Dir(map[]))
    decreases |p|
  {
    var c := n.children;
    if p[0] in c {
      MkdirFresh(c[p[0]], p[1..]);
    } else {
      MkdirOfEmpty(p[1..]);
    }
  }

  lemma {:induction false} MkdirOfEmpty(p: Path)
    ensures MkdirP(Dir(map[]), p).Some?
    ensures Lookup(MkdirP(Dir(map[]), p).value, p) == Some(Dir(map[]))
    decreases |p|
  {
    if |p| > 0 {
      MkdirOfEmpty(p[1..]);
    }
  }

  /** A successful open leaves a file at the path. */
  lemma {:induction false} CreateFileMakesFile(n: Node, p: Path)
    requires CreateFile(n, p).Some?
    ensures Lookup(CreateFile(n, p).value, p) == Some(File)
    decreases |p|
  {
    if |p| > 1 {
      CreateFileMakesFile(n.children[p[0]], p[1..]);
    }
  }

  /** A successful `mkdir -p` keeps every directory that was there. */
  lemma {:induction false} MkdirKeepsDirs(n: Node, p: Path, q: Path)
    requires MkdirP(n, p).Some? && IsDirAt(n, q)
    ensures IsDirAt(MkdirP(n, p).value, q)
    decreases |p|
  {
    if |p| > 0 && |q| > 0 && q[0] == p[0] {
      var c := n.children;
      MkdirKeepsDirs(c[p[0]], p[1..], q[1..]);
    }
  }

  /** A successful `mkdir -p` keeps every file that was there. */
  lemma {:induction false} MkdirKeepsFiles(n: Node, p: Path, q: Path)
    requires MkdirP(n, p).Some? && Lookup(n, q) == Some(File)
    ensures Lookup(MkdirP(n, p).value, q) == Some(File)
    decreases |p|
  {
    if |p| > 0 && |q| > 0 && q[0] == p[0] {
      var c := n.children;
      MkdirKeepsFiles(c[p[0]], p[1..], q[1..]);
    }
  }

  /** A successful open keeps every directory that was there: it never
      replaces one. */
  lemma {:induction false} CreateFileKeepsDirs(n: Node, p: Path, q: Path)
    requires CreateFile(n, p).Some? && IsDirAt(n, q)
    ensures IsDirAt(CreateFile(n, p).value, q)
    decreases |p|
  {
    if |q| > 0 && q[0] == p[0] && |p| > 1 {
      var c := n.children;
      CreateFileKeepsDirs(c[p[0]], p[1..], q[1..]);
    }
  }

  /** A successful open keeps every file that was there, the one it opens
      included. */
  lemma {:induction false} CreateFileKeepsFiles(n: Node, p: Path, q: Path)
    requires CreateFile(n, p).Some? && Lookup(n, q) == Some(File)
    ensures Lookup(CreateFile(n, p).value, q) == Some(File)
    decreases |p|
  {
    if |q| > 0 && q[0] == p[0] && |p| > 1 {
      var c := n.children;
      CreateFileKeepsFiles(c[p[0]], p[1..], q[1..]);
    }
  }

  predicate Distinct(names: seq<string>) {
    forall i, j :: 0 <= i < j < |names| ==> names[i] != names[j]
  }

  /** The mutable filesystem: the tree below "/". */
  class FileSystem {
    var root: Node

    constructor(root: Node)
      ensures this.root == root
    {
      this.root := root;
    }

    /** `fs.existsSync(p)`. */
    method Exists(p: Path) returns (b: bool)
      ensures b <==> Lookup(root, p).Some?
    {
      b := Lookup(root, p).Some?;
    }

    /** `fs.lstatSync(p).isDirectory()`; only called on listed names. */
    method IsDirectory(p: Path) returns (b: bool)
      requires Lookup(root, p).Some?
      ensures b <==> IsDirAt(root, p)
    {
      b := Lookup(root, p).value.Dir?;
    }

    /** `fs.readdirSync(p)`: every name once, in an order the model leaves open;
        a missing path or a file is a read error. */
    method ReadDir(p: Path) returns (r: PathProbe.ReadDir)
      ensures IsDirAt(root, p) <==> r.Listing?
      ensures r.Listing? ==> Distinct(r.names)
      ensures r.Listing? ==> forall x :: x in r.names <==> x in Lookup(root, p).value.children
    {
      match Lookup(root, p)
      case None =>
        r := PathProbe.ReadError("ENOENT");
      case Some(File) =>
        r := PathProbe.ReadError("ENOTDIR");
      case Some(Dir(c)) =>
        var names: seq<string> := [];
        var rest := c.Keys;
        while rest != {}
          invariant rest <= c.Keys
          invariant forall x :: x in names <==> x in c.Keys && x !in rest
          invariant Distinct(names)
          decreases rest
        {
          var x :| x in rest;
          names := names + [x];
          rest := rest - {x};
        }
        r := PathProbe.Listing(names);
    }

    /** `fs.mkdirSync(p, { recursive: true })`; `ok` is false where it throws. */
    method Mkdir(p: Path) returns (ok: bool)
      modifies this
      ensures ok <==> MkdirP(old(root), p).Some?
      ensures root == if ok then MkdirP(old(root), p).value else old(root)
    {
      var r := MkdirP(root, p);
      ok := r.Some?;
      if ok {
        root := r.value;
      }
    }

    /** `fs.createWriteStream(p)` opening its file; `ok` is false on an open error. */
    method OpenForWrite(p: Path) returns (ok: bool)
      modifies this
      ensures ok <==> CreateFile(old(root), p).Some?
      ensures root == if ok then CreateFile(old(root), p).value else old(root)
    {
      var r := CreateFile(root, p);
      ok := r.Some?;
      if ok {
        root := r.value;
      }
    }

    /** `fs.rmSync(p, { recursive: true })` for a directory, `fs.unlinkSync(p)`
        for a file, where `p` is the entry `name` of directory `parent`. */
    method Remove(parent: Path, name: string)
      requires IsDirAt(root, parent) && name in Lookup(root, parent).value.children
      modifies this
      ensures root == Update(old(root), parent, RemoveChild(Lookup(old(root), parent).value, name))
      ensures IsDirAt(root, parent) && name !in Lookup(root, parent).value.children
    {
      var dir := RemoveChild(Lookup(root, parent).value, name);
      LookupUpdate(root, parent, dir);
      root := Update(root, parent, dir);
    }
  }
}
