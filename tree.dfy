/**
 * The tree held by the `VFS` object (app.js:1-287), as a value, with its path
 * resolver and its create/read/update/delete/list operations written as
 * functions of the root node. Each function follows the source step by step;
 * the lemmas below state what each operation does to the tree in terms of
 * `Lookup`, independently of how it does it.
 */
module Tree {
  import opened Wrappers
  import opened Paths

  /**
   * `{type: 'file', name, path, content}` or `{type: 'directory', name, path, children}`.
   * `order` is the order in which `Object.keys(children)` and `for ... in`
   * enumerate the children: the order in which the keys were inserted.
   */
  datatype Node =
    | File(name: string, path: string, content: string)
    | Dir(name: string, path: string, children: map<string, Node>, order: seq<string>)

  /** `VFS.data['/']` as the program starts (app.js:3). */
  const EmptyRoot: Node := Dir("/", "/", map[], [])

  // ---------------------------------------------------------------------
  // The tree invariant

  ghost predicate Distinct(s: seq<string>) {
    forall i, j :: 0 <= i < j < |s| ==> s[i] != s[j]
  }

  /** The enumeration order lists every key of the children exactly once. */
  ghost predicate OrderMatches(children: map<string, Node>, order: seq<string>) {
    Distinct(order) && forall k :: k in children <==> k in order
  }

  /** The name a node at segments `at` carries: `'/'` for the root, else the last segment. */
  function NameAt(at: seq<string>): string {
    if at == [] then "/" else at[|at| - 1]
  }

  /**
   * The node reached from the root through segments `at` is well formed: its
   * name is the last segment, its path is the canonical path of `at`, every
   * child is stored under its own name (a valid segment), files are leaves and
   * never the root.
   */
  ghost predicate WellFormed(n: Node, at: seq<string>)
    decreases n
  {
    && n.name == NameAt(at)
    && n.path == Canon(at)
    && match n
       case File(_, _, _) => at != []
       case Dir(_, _, children, order) =>
         && OrderMatches(children, order)
         && forall k :: k in children ==> IsSegment(k) && WellFormed(children[k], at + [k])
  }

  /** The invariant of the whole tree: a well-formed directory at the root. */
  ghost predicate ValidRoot(root: Node) {
    root.Dir? && WellFormed(root, [])
  }

  // ---------------------------------------------------------------------
  // Looking nodes up

  /** The node reached by following `q` from `n`, descending only through directories. */
  function Lookup(n: Node, q: seq<string>): Option<Node>
    decreases |q|
  {
    if q == [] then Some(n)
    else if n.Dir? && q[0] in n.children then Lookup(n.children[q[0]], q[1..])
    else None
  }

  predicate IsFileAt(n: Node, q: seq<string>) {
    Lookup(n, q).Some? && Lookup(n, q).value.File?
  }

  predicate IsDirAt(n: Node, q: seq<string>) {
    Lookup(n, q).Some? && Lookup(n, q).value.Dir?
  }

  predicate IsPrefix(p: seq<string>, q: seq<string>) {
    |p| <= |q| && q[..|p|] == p
  }

  /** What a position holds, apart from names and paths (which `WellFormed` fixes). */
  datatype Entry = FileEntry(content: string) | DirEntry

  function EntryOf(n: Node): Entry {
    match n
    case File(_, _, content) => FileEntry(content)
    case Dir(_, _, _, _) => DirEntry
  }

  /** The observable content of the tree at one position. */
  function View(n: Node, q: seq<string>): Option<Entry> {
    match Lookup(n, q)
    case None => None
    case Some(m) => Some(EntryOf(m))
  }

  /** The enumeration order of the directory at one position, if a directory is there. */
  function OrderAt(n: Node, q: seq<string>): Option<seq<string>> {
    match Lookup(n, q)
    case Some(Dir(_, _, _, order)) => Some(order)
    case _ => None
  }

  // ---------------------------------------------------------------------
  // In-place updates of a directory's children

  /** `d.children[k] = c`: a new key goes to the end of the enumeration order, an existing key keeps its place. */
  function SetChild(d: Node, k: string, c: Node): (r: Node)
    requires d.Dir?
    ensures r.Dir? && r.name == d.name && r.path == d.path
    ensures r.children == d.children[k := c]
    ensures r.order == if k in d.children then d.order else d.order + [k]
  {
    Dir(d.name, d.path, d.children[k := c], if k in d.children then d.order else d.order + [k])
  }

  /** The enumeration order without key `k`. */
  function Without(s: seq<string>, k: string): (r: seq<string>)
    ensures forall x :: x in r <==> x in s && x != k
    ensures Distinct(s) ==> Distinct(r)
  {
    if s == [] then []
    else if s[0] == k then Without(s[1..], k)
    else
      var rest := Without(s[1..], k);
      assert Distinct(s) ==> s[0] !in s[1..];
      [s[0]] + rest
  }

  /** `delete d.children[k]`. */
  function RemoveChild(d: Node, k: string): (r: Node)
    requires d.Dir?
    ensures r.Dir? && r.name == d.name && r.path == d.path
    ensures r.children == d.children - {k}
  {
    Dir(d.name, d.path, d.children - {k}, Without(d.order, k))
  }

  /**
   * The tree with the node at `q` replaced by `x`: what an assignment through a
   * reference to that node amounts to. Every directory on the way keeps its
   * place and its other children. A position that does not exist leaves the tree as it is.
   */
  function SetAt(n: Node, q: seq<string>, x: Node): (r: Node)
    ensures q != [] ==> r.Dir? == n.Dir?
    decreases |q|
  {
    if q == [] then x
    else if n.Dir? && q[0] in n.children then SetChild(n, q[0], SetAt(n.children[q[0]], q[1..], x))
    else n
  }

  // ---------------------------------------------------------------------
  // _resolvePath (app.js:7-51)

  /** The result object of `_resolvePath`: `{parent, current, targetName}` or `{..., error}`. */
  datatype Resolution =
    | Resolved(parent: Option<Node>, current: Option<Node>, targetName: string)
    | Unresolved(error: string)

  /** The loop of app.js:22-30: descend through `segs`, each of which must name a child directory. */
  function WalkDirs(d: Node, segs: seq<string>): (r: Result<Node, string>)
    requires d.Dir?
    ensures r.Ok? ==> r.value.Dir?
    decreases |segs|
  {
    if segs == [] then Ok(d)
    else if segs[0] in d.children && d.children[segs[0]].Dir? then WalkDirs(d.children[segs[0]], segs[1..])
    else Err(segs[0])
  }

  /** `parent.children[targetName]`, absent when there is no such key. */
  function ChildOf(d: Node, name: string): Option<Node>
    requires d.Dir?
  {
    if name in d.children then Some(d.children[name]) else None
  }

  /** `VFS._resolvePath(path)`. */
  function Resolve(root: Node, path: string): (r: Resolution)
    requires root.Dir?
    ensures r.Resolved? ==> (r.parent.None? <==> path == "/")
    ensures r.Resolved? && r.parent.Some? ==> r.parent.value.Dir?
  {
    if path == "/" then Resolved(None, Some(root), "/")
    else
      var parts := Segments(path);
      if |parts| == 0 then Unresolved("Invalid path")
      else
        var name := parts[|parts| - 1];
        match WalkDirs(root, parts[..|parts| - 1])
        case Err(part) => Unresolved("Path not found or not a directory at: " + part)
        case Ok(parent) => Resolved(Some(parent), ChildOf(parent, name), name)
  }

  // ---------------------------------------------------------------------
  // createFile (app.js:54-97) and createDirectory (app.js:243-286)

  /** What the create call puts at the final segment. */
  datatype NewLeaf = NewFile(content: string) | NewDirectory

  function MakeLeaf(leaf: NewLeaf, name: string, path: string): Node {
    match leaf
    case NewFile(content) => File(name, path, content)
    case NewDirectory => Dir(name, path, map[], [])
  }

  /** `constructedPath === '' ? '/' + name : constructedPath + '/' + name`. */
  function Extend(built: string, name: string): string {
    if built == "" then "/" + name else built + "/" + name
  }

  /**
   * The loop of app.js:64-96 (and 253-285) run from directory `d` over the
   * remaining segments `rest`, `built` being the path constructed so far. A
   * missing intermediate directory is inserted before the walk goes on into it,
   * and stays inserted whatever happens further down, exactly as the in-place
   * assignment does; a file in the way or an existing final name fails.
   */
  function CreateIn(d: Node, rest: seq<string>, built: string, leaf: NewLeaf): (r: (bool, Node))
    requires d.Dir? && rest != []
    ensures r.1.Dir? && r.1.name == d.name && r.1.path == d.path
    decreases |rest|
  {
    var name := rest[0];
    var here := Extend(built, name);
    if |rest| == 1 then
      if name in d.children then (false, d)
      else (true, SetChild(d, name, MakeLeaf(leaf, name, here)))
    else if name !in d.children then
      var (ok, c) := CreateIn(Dir(name, here, map[], []), rest[1..], here, leaf);
      (ok, SetChild(d, name, c))
    else if d.children[name].File? then (false, d)
    else
      var (ok, c) := CreateIn(d.children[name], rest[1..], here, leaf);
      (ok, SetChild(d, name, c))
  }

  /** `createFile(path, content)` / `createDirectory(path)`: the success flag and the new root. */
  function CreateNode(root: Node, path: string, leaf: NewLeaf): (r: (bool, Node))
    requires root.Dir?
    ensures r.1.Dir? && r.1.name == root.name && r.1.path == root.path
  {
    if path == "/" then (false, root)
    else
      var parts := Segments(path);
      if |parts| == 0 then (false, root)
      else CreateIn(root, parts, "", leaf)
  }

  function CreateFile(root: Node, path: string, content: string): (bool, Node)
    requires root.Dir?
  {
    CreateNode(root, path, NewFile(content))
  }

  function CreateDirectory(root: Node, path: string): (bool, Node)
    requires root.Dir?
  {
    CreateNode(root, path, NewDirectory)
  }

  // ---------------------------------------------------------------------
  // readFile, updateFile, deleteFile, deleteDirectory, listDirectoryContents

  /** `readFile(path)` (app.js:101-120): the content, or `null` (None). */
  function ReadFile(root: Node, path: string): Option<string>
    requires root.Dir?
  {
    match Resolve(root, path)
    case Unresolved(_) => None
    case Resolved(_, current, _) =>
      if current.Some? && current.value.File? then Some(current.value.content) else None
  }

  /** `updateFile(path, newContent)` (app.js:124-144): `current.content = newContent`. */
  function UpdateFile(root: Node, path: string, newContent: string): (r: (bool, Node))
    requires root.Dir?
    ensures r.1.Dir?
  {
    match Resolve(root, path)
    case Unresolved(_) => (false, root)
    case Resolved(_, current, _) =>
      if current.Some? && current.value.File? then
        (true, SetAt(root, Segments(path), current.value.(content := newContent)))
      else (false, root)
  }

  /** `deleteFile(path)` (app.js:149-177): `delete parent.children[targetName]`. */
  function DeleteFile(root: Node, path: string): (r: (bool, Node))
    requires root.Dir?
    ensures r.1.Dir?
  {
    if path == "/" then (false, root)
    else match Resolve(root, path)
    case Unresolved(_) => (false, root)
    case Resolved(parent, current, name) =>
      if current.None? || !current.value.File? then (false, root)
      // app.js:169: cannot fail once `current` was found
      else if parent.None? || name !in parent.value.children then (false, root)
      else (true, SetAt(root, DropLast(Segments(path)), RemoveChild(parent.value, name)))
  }

  /** `deleteDirectory(path)` (app.js:182-215): only an empty directory is detached. */
  function DeleteDirectory(root: Node, path: string): (r: (bool, Node))
    requires root.Dir?
    ensures r.1.Dir?
  {
    if path == "/" then (false, root)
    else match Resolve(root, path)
    case Unresolved(_) => (false, root)
    case Resolved(parent, current, name) =>
      if current.None? || !current.value.Dir? then (false, root)
      else if |current.value.children| > 0 then (false, root)
      // app.js:207: cannot fail once `current` was found
      else if parent.None? || name !in parent.value.children then (false, root)
      else (true, SetAt(root, DropLast(Segments(path)), RemoveChild(parent.value, name)))
  }

  /** `listDirectoryContents(path)` (app.js:220-239): `Object.keys(current.children)`, or `null`. */
  function ListDirectoryContents(root: Node, path: string): Option<seq<string>>
    requires root.Dir?
  {
    match Resolve(root, path)
    case Unresolved(_) => None
    case Resolved(_, current, _) =>
      if current.Some? && current.value.Dir? then Some(current.value.order) else None
  }

  // ---------------------------------------------------------------------
  // getAllFilePaths (app.js:574-586)

  /**
   * The file paths below directory `n`, whose path is taken to be `at`, in
   * enumeration order, depth first. `FilesFrom(n, i, at)` is what the loop
   * contributes from the `i`-th key on, and `Contribution(n, i, at)` what the
   * `i`-th key alone contributes.
   */
  function AllFilePaths(n: Node, at: string): seq<string>
    requires n.Dir?
    decreases n, |n.order| + 2
  {
    FilesFrom(n, 0, at)
  }

  function FilesFrom(n: Node, i: nat, at: string): seq<string>
    requires n.Dir? && i <= |n.order|
    decreases n, |n.order| - i + 1
  {
    if i == |n.order| then []
    else Contribution(n, i, at) + FilesFrom(n, i + 1, at)
  }

  function Contribution(n: Node, i: nat, at: string): seq<string>
    requires n.Dir? && i < |n.order|
    decreases n, 0
  {
    var name := n.order[i];
    var childPath := ChildPath(at, name);
    if name !in n.children then []  // not in a well-formed tree: `order` lists the keys
    else match n.children[name]
      case File(_, _, _) => [childPath]
      case Dir(_, _, _, _) => AllFilePaths(n.children[name], childPath)
  }
}
