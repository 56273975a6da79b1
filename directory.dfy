/** The virtual directory tree the asset browser reads from: path
    normalisation (`resolvePath`), a folder tree built from a flat list of
    paths and files (`FolderObject_Directory.fromFileList`), lookups of files
    and folders, listings, and `SubDirectory`, which forwards every lookup to
    a parent directory under a base path.

    Folders are values: each folder has exactly one parent, so the in-place
    updates of `fromFileList` are the same as rebuilding the path from the
    root. A folder keeps its children in the order their names were first
    assigned, as a plain JavaScript object does for non-numeric keys. */
module Directory {
  import opened Text
  import opened Failures

  type Blob = seq<byte>

  /** An entry of a folder: a file, or a sub-folder. */
  datatype Node = File(blob: Blob) | Folder(children: seq<Child>)

  /** One key of a folder object. */
  datatype Child = Child(name: string, node: Node)

  /** The two kinds of directory the reader is given. */
  datatype Directory =
    | FolderObject(root: seq<Child>)                   // FolderObject_Directory
    | SubDirectory(directory: Directory, path: string) // a view of `directory` under `path`

  // ------------------------------------------------------------ resolvePath

  /** `path.replace(/\\/g, '/')`. */
  function Slashes(path: string): (r: string)
    ensures |r| == |path| && '\\' !in r
    ensures forall i :: 0 <= i < |path| ==> r[i] == if path[i] == '\\' then '/' else path[i]
  {
    seq(|path|, i requires 0 <= i < |path| => if path[i] == '\\' then '/' else path[i])
  }

  /** One argument of `resolvePath` after its fixing up: backslashes become
      slashes, then one leading and one trailing slash are dropped. */
  function Normalize(path: string): (r: string)
    ensures '\\' !in r
  {
    var s := Slashes(path);
    var s1 := if |s| > 0 && s[0] == '/' then s[1..] else s;
    if |s1| > 0 && s1[|s1| - 1] == '/' then s1[..|s1| - 1] else s1
  }

  /** A path that `resolvePath` leaves as it is. */
  predicate Normalised(path: string)
  {
    '\\' !in path && (path == [] || (path[0] != '/' && path[|path| - 1] != '/'))
  }

  /** Appending one fixed-up argument: a `/` goes between, unless the text so
      far is empty or already ends in `/`. */
  function JoinSegment(joined: string, path: string): string
  {
    if |joined| == 0 || joined[|joined| - 1] == '/' then joined + path else joined + "/" + path
  }

  /** `resolvePath(...paths)`. */
  function ResolvePath(paths: seq<string>): (r: string)
    ensures '\\' !in r
  {
    if paths == [] then ""
    else JoinSegment(ResolvePath(paths[..|paths| - 1]), Normalize(paths[|paths| - 1]))
  }

  /** A normalised path is its own normalisation, and `Normalize` removes
      at most one slash at each end. */
  lemma NormalizeFacts(path: string)
    ensures Normalised(path) ==> Normalize(path) == path
    ensures Normalised(path) ==> Normalize("/" + path + "/") == path
  {
    if Normalised(path) {
      assert Slashes(path) == path;
      var w := "/" + path + "/";
      assert Slashes(w) == w;
      assert w[1..] == path + "/";
      assert (path + "/")[..|path|] == path;
    }
  }

  /** Only one slash goes at each end. */
  lemma NormalizeStripsOnce()
    ensures Normalize("//a//") == "/a/"
    ensures Normalize("a\\b") == "a/b"
  {
    assert Slashes("//a//") == "//a//";
    assert Slashes("a\\b") == "a/b";
  }

  /** One argument resolves to its normalisation. */
  lemma ResolveOne(path: string)
    ensures ResolvePath([path]) == Normalize(path)
  {
    assert [path][..0] == [];
  }

  /** A normalised base that is not empty gets exactly one `/` between it and
      the next normalised part. */
  lemma ResolveUnder(base: string, path: string)
    requires Normalised(base) && base != [] && Normalised(path)
    ensures ResolvePath([base, path]) == base + "/" + path
  {
    ResolveOne(base);
    NormalizeFacts(base);
    NormalizeFacts(path);
    calc {
      ResolvePath([base, path]);
      { assert [base, path][..1] == [base]; }
      JoinSegment(ResolvePath([base]), Normalize(path));
      JoinSegment(base, path);
    }
  }

  /** An empty first argument adds nothing. */
  lemma ResolveAfterEmpty(path: string)
    requires Normalised(path)
    ensures ResolvePath(["", path]) == path
  {
    assert ["", path][..1] == [""];
    ResolveOne("");
    assert Slashes("") == "";
    NormalizeFacts(path);
  }

  // ------------------------------------------------------- folder objects

  /** `folder[name]`. */
  function Find(children: seq<Child>, name: string): Option<Node>
  {
    if children == [] then None
    else if children[0].name == name then Some(children[0].node)
    else Find(children[1..], name)
  }

  /** `folder[name] = node`: an existing key keeps its place, a new key goes last. */
  function Put(children: seq<Child>, name: string, node: Node): seq<Child>
  {
    if children == [] then [Child(name, node)]
    else if children[0].name == name then [Child(name, node)] + children[1..]
    else [children[0]] + Put(children[1..], name, node)
  }

  function Names(children: seq<Child>): seq<string>
  {
    if children == [] then [] else [children[0].name] + Names(children[1..])
  }

  /** An assignment is read back, leaves the other keys alone, and adds a key
      at the end only when it was new. */
  lemma {:induction false} FindPut(children: seq<Child>, name: string, node: Node, other: string)
    ensures Find(Put(children, name, node), name) == Some(node)
    ensures other != name ==> Find(Put(children, name, node), other) == Find(children, other)
    ensures Names(Put(children, name, node)) == if name in Names(children) then Names(children) else Names(children) + [name]
  {
    if children != [] && children[0].name != name {
      FindPut(children[1..], name, node, other);
    }
  }

  // --------------------------------------------------------------- lookups

  /** The file at the path whose components are `segs`: every component but
      the last must be a folder, the last must be a file. */
  function FileAt(children: seq<Child>, segs: seq<string>): Option<Blob>
    requires |segs| >= 1
    decreases |segs|
  {
    match Find(children, segs[0])
    case Some(File(b)) => if |segs| == 1 then Some(b) else None
    case Some(Folder(c)) => if |segs| == 1 then None else FileAt(c, segs[1..])
    case None => None
  }

  /** The folder at `segs`: the mirror image of `FileAt`. */
  function FolderAt(children: seq<Child>, segs: seq<string>): Option<seq<Child>>
    requires |segs| >= 1
    decreases |segs|
  {
    match Find(children, segs[0])
    case Some(File(_)) => None
    case Some(Folder(c)) => if |segs| == 1 then Some(c) else FolderAt(c, segs[1..])
    case None => None
  }

  /** `getFile(path)`: the path is resolved, split on `/`, and walked. A
      path that finds a file finds no folder. */
  function GetFile(d: Directory, path: string): (r: Option<Blob>)
    ensures r.Some? ==> GetDirectory(d, path).None?
  {
    match d
    case FolderObject(root) =>
      var segs := Split(ResolvePath([path]), '/');
      FileOrFolder(root, segs);
      FileAt(root, segs)
    case SubDirectory(parent, base) => GetFile(parent, ResolvePath([base, path]))
  }

  /** `getDirectory(path)`. */
  function GetDirectory(d: Directory, path: string): (r: Option<Directory>)
    ensures r.Some? ==> r.value.FolderObject?
  {
    match d
    case FolderObject(root) =>
      (match FolderAt(root, Split(ResolvePath([path]), '/'))
       case Some(c) => Some(FolderObject(c))
       case None => None)
    case SubDirectory(parent, base) => GetDirectory(parent, ResolvePath([base, path]))
  }

  /** The names of a folder's children, folders marked with a trailing `/`. */
  function Listing(children: seq<Child>): (r: seq<string>)
    ensures |r| == |children|
  {
    if children == [] then []
    else [if children[0].node.Folder? then children[0].name + "/" else children[0].name] + Listing(children[1..])
  }

  /** `listEntries()`: one name per child; a sub-directory whose folder is
      missing fails. */
  function ListEntries(d: Directory): (r: Result<seq<string>>)
    ensures d.FolderObject? ==> r.Ok? && |r.value| == |d.root|
    ensures d.SubDirectory? ==> (r.Err? <==> GetDirectory(d.directory, d.path).None?)
    ensures r.Err? ==> r.error == DirectoryNotFound
  {
    match d
    case FolderObject(root) => Ok(Listing(root))
    case SubDirectory(parent, base) =>
      match GetDirectory(parent, base)
      case Some(sub) => Ok(Listing(sub.root))
      case None => Err(DirectoryNotFound)
  }

  /** A path names a file or a folder, never both. */
  lemma {:induction false} FileOrFolder(children: seq<Child>, segs: seq<string>)
    requires |segs| >= 1
    decreases |segs|
    ensures !(FileAt(children, segs).Some? && FolderAt(children, segs).Some?)
  {
    if |segs| > 1 && Find(children, segs[0]).Some? && Find(children, segs[0]).value.Folder? {
      FileOrFolder(Find(children, segs[0]).value.children, segs[1..]);
    }
  }

  /** Walking `a + b` is walking `a` to a folder, then `b` inside it. */
  lemma {:induction false} FileAtAppend(children: seq<Child>, a: seq<string>, b: seq<string>)
    requires |a| >= 1 && |b| >= 1
    decreases |a|
    ensures FileAt(children, a + b) == match FolderAt(children, a) case Some(c) => FileAt(c, b) case None => None
  {
    assert (a + b)[0] == a[0];
    if |a| > 1 {
      assert (a + b)[1..] == a[1..] + b;
      match Find(children, a[0]) {
        case Some(Folder(c)) => FileAtAppend(c, a[1..], b);
        case Some(File(_)) =>
        case None =>
      }
    } else {
      assert (a + b)[1..] == b;
    }
  }

  /** Leading and trailing slashes around a normalised path do not change
      what it finds. */
  lemma OuterSlashesIgnored(d: Directory, path: string)
    requires Normalised(path)
    ensures GetFile(d, "/" + path + "/") == GetFile(d, path)
    ensures GetDirectory(d, "/" + path + "/") == GetDirectory(d, path)
  {
    NormalizeFacts(path);
    var w := "/" + path + "/";
    match d {
      case FolderObject(root) =>
        ResolveOne(w);
        ResolveOne(path);
      case SubDirectory(parent, base) =>
        assert [base, w][..1] == [base] == [base, path][..1];
    }
  }

  /** Splitting at a `/` between two parts splits each part. */
  lemma SplitAround(x: string, y: string)
    ensures Split(x + "/" + y, '/') == Split(x, '/') + Split(y, '/')
  {
    var xs, ys := Split(x, '/'), Split(y, '/');
    JoinAppend(xs, ys, "/");
    SplitJoin(xs + ys, '/');
  }

  lemma {:induction false} JoinAppend(xs: seq<string>, ys: seq<string>, sep: string)
    requires |xs| >= 1 && |ys| >= 1
    ensures Join(xs + ys, sep) == Join(xs, sep) + sep + Join(ys, sep)
  {
    if |xs| == 1 {
      assert (xs + ys)[1..] == ys;
    } else {
      assert (xs + ys)[1..] == xs[1..] + ys;
      JoinAppend(xs[1..], ys, sep);
    }
  }

  /** Two normalised non-empty parts joined by `/` are normalised. */
  lemma JoinedNormalised(base: string, path: string)
    requires Normalised(base) && base != [] && Normalised(path) && path != []
    ensures Normalised(base + "/" + path)
  {
    var w := base + "/" + path;
    assert w[0] == base[0] && w[|w| - 1] == path[|path| - 1];
    assert '\\' !in w by {
      forall i | 0 <= i < |w| ensures w[i] != '\\' {
        if i < |base| {
          assert w[i] == base[i];
        } else if i > |base| {
          assert w[i] == path[i - |base| - 1];
        }
      }
    }
  }

  /** A sub-directory finds what its base folder finds: looking up a
      non-empty `path` under `base` is looking up `path` in the folder
      `getDirectory(base)`. */
  lemma SubDirectoryAgrees(root: seq<Child>, base: string, path: string)
    requires Normalised(base) && base != [] && Normalised(path) && path != []
    ensures GetFile(SubDirectory(FolderObject(root), base), path)
            == match GetDirectory(FolderObject(root), base)
               case Some(sub) => GetFile(sub, path)
               case None => None
  {
    var w := base + "/" + path;
    ResolveUnder(base, path);
    JoinedNormalised(base, path);
    ResolveOne(w);
    NormalizeFacts(w);
    ResolveOne(path);
    NormalizeFacts(path);
    ResolveOne(base);
    NormalizeFacts(base);
    assert GetFile(SubDirectory(FolderObject(root), base), path) == FileAt(root, Split(w, '/'));
    SplitAround(base, path);
    FileAtAppend(root, Split(base, '/'), Split(path, '/'));
  }

  /** Each name a folder lists leads back to its entry: a name with `/`
      to a folder, a bare name to the file. */
  lemma ListingAgrees(root: seq<Child>, i: nat)
    requires i < |root|
    requires Find(root, root[i].name) == Some(root[i].node)
    requires Normalised(root[i].name) && '/' !in root[i].name
    ensures var name := root[i].name;
            && (root[i].node.Folder? ==> Listing(root)[i] == name + "/" && GetDirectory(FolderObject(root), name) == Some(FolderObject(root[i].node.children)))
            && (root[i].node.File? ==> Listing(root)[i] == name && GetFile(FolderObject(root), name) == Some(root[i].node.blob))
  {
    var name := root[i].name;
    ResolveOne(name);
    NormalizeFacts(name);
    SplitNoSeparator(name, '/');
    ListingAt(root, i);
  }

  lemma {:induction false} ListingAt(children: seq<Child>, i: nat)
    requires i < |children|
    ensures Listing(children)[i] == if children[i].node.Folder? then children[i].name + "/" else children[i].name
  {
    if i > 0 {
      ListingAt(children[1..], i - 1);
    }
  }

  // --------------------------------------------------------- fromFileList

  /** Placing `blob` at `segs`: the folders on the way are created when
      missing; a file on the way is a conflict. */
  function Insert(children: seq<Child>, segs: seq<string>, blob: Blob): (r: Result<seq<Child>>)
    requires |segs| >= 1
    ensures r.Ok? ==> FileAt(r.value, segs) == Some(blob)
    ensures r.Err? ==> r.error == FileFolderConflict
    decreases |segs|
  {
    if |segs| == 1 then
      FindPut(children, segs[0], File(blob), segs[0]);
      Ok(Put(children, segs[0], File(blob)))
    else
      var sub :- match Find(children, segs[0])
                 case None => Ok([])
                 case Some(Folder(c)) => Ok(c)
                 case Some(File(_)) => Err(FileFolderConflict);
      var sub' :- Insert(sub, segs[1..], blob);
      FindPut(children, segs[0], Folder(sub'), segs[0]);
      Ok(Put(children, segs[0], Folder(sub')))
  }

  /** The tree `fromFileList` builds, file by file in list order: the file
      inserted last is always found at its path, and the only failure is a
      file/folder conflict. */
  function BuildTree(files: seq<(string, Blob)>): (r: Result<seq<Child>>)
    ensures r.Err? ==> r.error == FileFolderConflict
    ensures r.Ok? && files != [] ==> FileAt(r.value, Split(files[|files| - 1].0, '/')) == Some(files[|files| - 1].1)
  {
    if files == [] then Ok([])
    else
      var tree :- BuildTree(files[..|files| - 1]);
      var (path, blob) := files[|files| - 1];
      Insert(tree, Split(path, '/'), blob)
  }

  /** `FolderObject_Directory.fromFileList(files)`. */
  method FromFileList(files: seq<(string, Blob)>) returns (r: Result<Directory>)
    ensures BuildTree(files).Ok? ==> r == Ok(FolderObject(BuildTree(files).value))
    ensures BuildTree(files).Err? ==> r == Err(BuildTree(files).error)
  {
    var root: seq<Child> := [];
    var i := 0;
    while i < |files|
      invariant 0 <= i <= |files|
      invariant BuildTree(files[..i]) == Ok(root)
    {
      var (path, blob) := files[i];
      assert files[..i + 1][..i] == files[..i];
      var inserted := Insert(root, Split(path, '/'), blob);
      if inserted.Err? {
        BuildTreeFailsOnce(files, i + 1);
        return Err(inserted.error);
      }
      root := inserted.value;
      i := i + 1;
    }
    assert files[..i] == files;
    r := Ok(FolderObject(root));
  }

  /** Once a prefix of the list fails, the whole list fails the same way. */
  lemma {:induction false} BuildTreeFailsOnce(files: seq<(string, Blob)>, n: nat)
    requires n <= |files| && BuildTree(files[..n]).Err?
    ensures BuildTree(files) == BuildTree(files[..n])
    decreases |files| - n
  {
    if n < |files| {
      assert files[..n + 1][..n] == files[..n];
      BuildTreeFailsOnce(files, n + 1);
    } else {
      assert files[..n] == files;
    }
  }

  predicate ProperPrefix(a: seq<string>, b: seq<string>)
  {
    |a| < |b| && b[..|a|] == a
  }

  /** Insertion fails exactly when a file sits where a folder is needed. */
  lemma {:induction false} InsertOk(children: seq<Child>, segs: seq<string>, blob: Blob)
    requires |segs| >= 1
    decreases |segs|
    ensures Insert(children, segs, blob).Ok? <==> forall k :: 1 <= k < |segs| ==> FileAt(children, segs[..k]).None?
    ensures Insert(children, segs, blob).Err? ==> Insert(children, segs, blob).error == FileFolderConflict
  {
    if |segs| > 1 {
      assert segs[..1] == [segs[0]];
      match Find(children, segs[0]) {
        case None =>
          InsertOk([], segs[1..], blob);
          forall k | 1 <= k < |segs| ensures FileAt(children, segs[..k]).None? {
            assert segs[..k][0] == segs[0];
          }
          assert forall k :: 1 <= k < |segs| - 1 ==> FileAt([], segs[1..][..k]).None?;
        case Some(File(_)) =>
          assert FileAt(children, segs[..1]).Some?;
        case Some(Folder(c)) =>
          InsertOk(c, segs[1..], blob);
          forall k | 2 <= k < |segs| ensures FileAt(children, segs[..k]) == FileAt(c, segs[1..][..k - 1]) {
            assert segs[..k][0] == segs[0];
            assert segs[..k][1..] == segs[1..][..k - 1];
          }
          if Insert(children, segs, blob).Ok? {
            forall k | 1 <= k < |segs| ensures FileAt(children, segs[..k]).None? {
              if k >= 2 {
                assert FileAt(c, segs[1..][..k - 1]).None?;
              }
            }
          } else {
            var k :| 1 <= k < |segs| - 1 && FileAt(c, segs[1..][..k]).Some?;
            assert FileAt(children, segs[..k + 1]).Some?;
          }
      }
    }
  }

  /** After a successful insertion at `q`: the file is at `q`, nothing is
      found below `q`, and every other path finds what it found before. */
  lemma {:induction false} InsertFiles(children: seq<Child>, q: seq<string>, blob: Blob, p: seq<string>)
    requires |q| >= 1 && |p| >= 1 && Insert(children, q, blob).Ok?
    decreases |q|
    ensures FileAt(Insert(children, q, blob).value, p)
            == if p == q then Some(blob) else if ProperPrefix(q, p) then None else FileAt(children, p)
  {
    if |q| == 1 {
      FindPut(children, q[0], File(blob), p[0]);
      if p[0] == q[0] {
        assert p[..1] == [p[0]] && q == [q[0]];
      }
    } else {
      var sub := match Find(children, q[0]) case Some(Folder(c)) => c case _ => [];
      var sub' := Insert(sub, q[1..], blob).value;
      FindPut(children, q[0], Folder(sub'), p[0]);
      if p[0] == q[0] {
        if |p| == 1 {
          InsertOk(children, q, blob);
          assert q[..1] == p;
        } else {
          InsertFiles(sub, q[1..], blob, p[1..]);
          SameHead(p, q);
        }
      }
    }
  }

  /** Paths with the same first component compare as their tails do. */
  lemma SameHead(p: seq<string>, q: seq<string>)
    requires |p| >= 1 && |q| >= 1 && p[0] == q[0]
    ensures p == q <==> p[1..] == q[1..]
    ensures ProperPrefix(q, p) <==> ProperPrefix(q[1..], p[1..])
  {
    assert p == [p[0]] + p[1..];
    assert q == [q[0]] + q[1..];
    if ProperPrefix(q[1..], p[1..]) {
      assert p[..|q|] == [p[0]] + p[1..][..|q| - 1];
    }
    if ProperPrefix(q, p) {
      assert p[1..][..|q| - 1] == p[..|q|][1..];
    }
  }

  /** A string path lies under a folder named by another path. */
  predicate FolderPrefixOf(q: string, p: string)
  {
    |q| < |p| && p[..|q| + 1] == q + "/"
  }

  /** A path whose components begin with all of another's components lies
      under the other as a folder. */
  lemma ComponentPrefix(q: string, p: string)
    requires ProperPrefix(Split(q, '/'), Split(p, '/'))
    ensures FolderPrefixOf(q, p)
  {
    var qs, ps := Split(q, '/'), Split(p, '/');
    var rest := ps[|qs|..];
    assert ps == qs + rest;
    JoinAppend(qs, rest, "/");
    assert p == q + "/" + Join(rest, "/");
    assert p[..|q| + 1] == q + "/";
  }

  predicate DistinctPaths(files: seq<(string, Blob)>)
  {
    forall i, j :: 0 <= i < j < |files| ==> files[i].0 != files[j].0
  }

  predicate NoFolderPrefix(files: seq<(string, Blob)>)
  {
    forall i, j :: 0 <= i < |files| && 0 <= j < |files| ==> !FolderPrefixOf(files[i].0, files[j].0)
  }

  function Components(files: seq<(string, Blob)>): (r: seq<seq<string>>)
    ensures |r| == |files|
  {
    seq(|files|, i requires 0 <= i < |files| => Split(files[i].0, '/'))
  }

  /** Every listed path finds its own file, and files are found only at
      listed paths. */
  ghost predicate Holds(tree: seq<Child>, files: seq<(string, Blob)>)
  {
    && (forall i :: 0 <= i < |files| ==> FileAt(tree, Split(files[i].0, '/')) == Some(files[i].1))
    && (forall segs :: |segs| >= 1 && FileAt(tree, segs).Some? ==> segs in Components(files))
  }

  /** The next path finds no file where it needs a folder. */
  lemma InsertNextOk(tree: seq<Child>, files: seq<(string, Blob)>, q: string, blob: Blob)
    requires Holds(tree, files) && NoFolderPrefix(files + [(q, blob)])
    ensures Insert(tree, Split(q, '/'), blob).Ok?
  {
    var all := files + [(q, blob)];
    var qs := Split(q, '/');
    forall k | 1 <= k < |qs| ensures FileAt(tree, qs[..k]).None? {
      if FileAt(tree, qs[..k]).Some? {
        var j :| 0 <= j < |files| && Components(files)[j] == qs[..k];
        assert all[j] == files[j] && all[|files|] == (q, blob);
        assert !FolderPrefixOf(files[j].0, q);
        ComponentPrefix(files[j].0, q);
        assert false;
      }
    }
    InsertOk(tree, qs, blob);
  }

  /** Inserting the next path keeps `Holds`. */
  lemma InsertNext(tree: seq<Child>, files: seq<(string, Blob)>, q: string, blob: Blob)
    requires Holds(tree, files)
    requires DistinctPaths(files + [(q, blob)]) && NoFolderPrefix(files + [(q, blob)])
    ensures Insert(tree, Split(q, '/'), blob).Ok?
    ensures Holds(Insert(tree, Split(q, '/'), blob).value, files + [(q, blob)])
  {
    var all := files + [(q, blob)];
    var qs := Split(q, '/');
    InsertNextOk(tree, files, q, blob);
    var after := Insert(tree, qs, blob).value;
    assert Components(all) == Components(files) + [qs];
    forall i | 0 <= i < |all| ensures FileAt(after, Split(all[i].0, '/')) == Some(all[i].1) {
      var ps := Split(all[i].0, '/');
      InsertFiles(tree, qs, blob, ps);
      if i < |files| {
        assert all[i] == files[i] && all[|files|] == (q, blob);
        assert files[i].0 != q;
        assert !FolderPrefixOf(q, files[i].0);
        if ps == qs {
          assert false;
        }
        if ProperPrefix(qs, ps) {
          ComponentPrefix(q, files[i].0);
          assert false;
        }
      }
    }
    forall segs | |segs| >= 1 && FileAt(after, segs).Some? ensures segs in Components(all) {
      InsertFiles(tree, qs, blob, segs);
    }
  }

  /** When the paths are distinct and none lies under another, building the
      tree succeeds, every path finds its own file, and files are found
      only at the given paths. */
  lemma {:induction false} BuildRetrievable(files: seq<(string, Blob)>)
    requires DistinctPaths(files) && NoFolderPrefix(files)
    ensures BuildTree(files).Ok?
    ensures forall i :: 0 <= i < |files| ==> FileAt(BuildTree(files).value, Split(files[i].0, '/')) == Some(files[i].1)
    ensures forall segs :: |segs| >= 1 && FileAt(BuildTree(files).value, segs).Some? ==> segs in Components(files)
  {
    if files != [] {
      var init := files[..|files| - 1];
      var (q, blob) := files[|files| - 1];
      assert files == init + [(q, blob)];
      BuildRetrievable(init);
      InsertNext(BuildTree(init).value, init, q, blob);
    }
  }

  /** Through `getFile`: when every path is also normalised, `getFile(path)`
      on the built directory returns that path's file. */
  lemma FromFileListRetrievable(files: seq<(string, Blob)>, i: nat)
    requires DistinctPaths(files) && NoFolderPrefix(files)
    requires i < |files| && Normalised(files[i].0)
    ensures BuildTree(files).Ok?
    ensures GetFile(FolderObject(BuildTree(files).value), files[i].0) == Some(files[i].1)
  {
    BuildRetrievable(files);
    ResolveOne(files[i].0);
    NormalizeFacts(files[i].0);
  }
}
