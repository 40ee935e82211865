/**
 * The `VFS` object (app.js:1-287) as a class whose one field is the root of
 * the tree, `VFS.data['/']`. Each method walks the tree step by step as the
 * source does and is proved to leave the root that the matching function of
 * module `Tree` describes; the lemmas of `TreeProperties` then say what that
 * is, and every method keeps the tree invariant `Valid()`.
 *
 * The source changes nodes in place through references; here nodes are
 * values, so a method that writes below the root rebuilds the directories on
 * the way down (`Plug`) and assigns the new root.
 */
module FileSystem {
  import opened Wrappers
  import opened Paths
  import opened Tree
  import opened TreeProperties

  /**
   * The root rebuilt from the directories passed on the way down: `spine[k]`
   * is the directory at depth `k`, `names[k]` the key followed out of it, and
   * `bottom` the (possibly changed) directory reached at the end.
   */
  /** The directories passed on the way down. */
  predicate AllDirs(spine: seq<Node>) {
    forall k :: 0 <= k < |spine| ==> spine[k].Dir?
  }

  function Plug(spine: seq<Node>, names: seq<string>, bottom: Node): (r: Node)
    requires |spine| == |names| && AllDirs(spine)
    requires bottom.Dir?
    ensures r.Dir?
    ensures spine != [] ==> r.name == spine[0].name && r.path == spine[0].path
    decreases |spine|
  {
    if spine == [] then bottom
    else Plug(DropLast(spine), DropLast(names), SetChild(spine[|spine| - 1], names[|names| - 1], bottom))
  }

  lemma PlugSnoc(spine: seq<Node>, names: seq<string>, d: Node, name: string, bottom: Node)
    requires |spine| == |names| && AllDirs(spine)
    requires d.Dir? && bottom.Dir?
    ensures Plug(spine + [d], names + [name], bottom) == Plug(spine, names, SetChild(d, name, bottom))
  {
    assert DropLast(spine + [d]) == spine;
    assert DropLast(names + [name]) == names;
  }

  /** One step of the walk down through an intermediate segment that is not a file. */
  lemma DescendStep(d: Node, rest: seq<string>, built: string, leaf: NewLeaf, next: Node)
    requires d.Dir? && |rest| > 1
    requires next == if rest[0] in d.children then d.children[rest[0]] else Dir(rest[0], Extend(built, rest[0]), map[], [])
    requires next.Dir?
    ensures CreateIn(d, rest, built, leaf) ==
      (CreateIn(next, rest[1..], Extend(built, rest[0]), leaf).0,
       SetChild(d, rest[0], CreateIn(next, rest[1..], Extend(built, rest[0]), leaf).1))
  {
  }

  lemma SliceStep<T>(s: seq<T>, i: nat)
    requires i < |s|
    ensures s[i..][0] == s[i] && s[i..][1..] == s[i + 1..]
    ensures s[..i + 1] == s[..i] + [s[i]]
  {
  }

  lemma LastSlice<T>(s: seq<T>, i: nat)
    requires i == |s| - 1
    ensures s[i..] == [s[i]]
  {
  }

  /**
   * The loop invariant of `CreateWalk`: at segment `i` of `parts`, in directory `d`
   * reached along `spine` with path `built`, finishing the walk from here and
   * plugging the result back along the spine gives the walk's result `goal`.
   */
  ghost predicate Walking(goal: (bool, Node), spine: seq<Node>, parts: seq<string>, i: nat, d: Node,
                          built: string, leaf: NewLeaf)
  {
    && i < |parts| && |spine| == i && AllDirs(spine) && d.Dir?
    && goal.0 == CreateIn(d, parts[i..], built, leaf).0
    && goal.1 == Plug(spine, parts[..i], CreateIn(d, parts[i..], built, leaf).1)
  }

  /** The walk starts at the root with nothing passed yet. */
  lemma StartWalking(start: Node, parts: seq<string>, leaf: NewLeaf)
    requires start.Dir? && parts != []
    ensures Walking(CreateIn(start, parts, "", leaf), [], parts, 0, start, "", leaf)
  {
    assert parts[0..] == parts && parts[..0] == [];
  }

  /** The loop invariant of `CreateWalk` carried from segment `i` to segment `i + 1`. */
  lemma KeepWalking(goal: (bool, Node), spine: seq<Node>, parts: seq<string>, i: nat, d: Node,
                    built: string, leaf: NewLeaf, next: Node)
    requires Walking(goal, spine, parts, i, d, built, leaf) && i + 1 < |parts|
    requires next == if parts[i] in d.children then d.children[parts[i]] else Dir(parts[i], Extend(built, parts[i]), map[], [])
    requires next.Dir?
    ensures Walking(goal, spine + [d], parts, i + 1, next, Extend(built, parts[i]), leaf)
  {
    var rest := parts[i..];
    SliceStep(parts, i);
    DescendStep(d, rest, built, leaf, next);
    PlugSnoc(spine, parts[..i], d, parts[i], CreateIn(next, parts[i + 1..], Extend(built, parts[i]), leaf).1);
  }

  /** The walk stops at a file in the way, with everything created so far left in place. */
  lemma StopAtFile(goal: (bool, Node), spine: seq<Node>, parts: seq<string>, i: nat, d: Node,
                   built: string, leaf: NewLeaf)
    requires Walking(goal, spine, parts, i, d, built, leaf) && i + 1 < |parts|
    requires parts[i] in d.children && d.children[parts[i]].File?
    ensures goal == (false, Plug(spine, parts[..i], d))
  {
    SliceStep(parts, i);
    FileInTheWay(d, parts[i..], built, leaf);
  }

  /** The walk at its last segment finishes with `AttachLeaf`'s result. */
  lemma LastWalking(goal: (bool, Node), spine: seq<Node>, parts: seq<string>, i: nat, d: Node,
                    built: string, leaf: NewLeaf)
    requires Walking(goal, spine, parts, i, d, built, leaf) && i + 1 == |parts|
    ensures goal == (CreateIn(d, [parts[i]], built, leaf).0, Plug(spine, parts[..i], CreateIn(d, [parts[i]], built, leaf).1))
  {
    LastSlice(parts, i);
  }

  /** The walk stops, changing nothing here, at a file in the way. */
  lemma FileInTheWay(d: Node, rest: seq<string>, built: string, leaf: NewLeaf)
    requires d.Dir? && |rest| > 1 && rest[0] in d.children && d.children[rest[0]].File?
    ensures CreateIn(d, rest, built, leaf) == (false, d)
  {
  }

  /** The last segment: an existing name fails, a new one gets the leaf. */
  lemma LastStep(d: Node, name: string, built: string, leaf: NewLeaf)
    requires d.Dir?
    ensures CreateIn(d, [name], built, leaf) ==
      if name in d.children then (false, d)
      else (true, SetChild(d, name, MakeLeaf(leaf, name, Extend(built, name))))
  {
  }

  class Vfs {
    /** `VFS.data['/']`. */
    var root: Node

    ghost predicate Valid()
      reads this
    {
      ValidRoot(root)
    }

    /** The object literal of app.js:1-4: an empty root directory. */
    constructor ()
      ensures Valid() && root == EmptyRoot
    {
      root := EmptyRoot;
    }

    /** `_resolvePath(path)` (app.js:7-51). */
    method ResolvePath(path: string) returns (r: Resolution)
      requires Valid()
      ensures r == Resolve(root, path)
      ensures r.Resolved? ==> r.current == Lookup(root, Segments(path))
    {
      if path == "/" {
        ResolveSpec(root, path);
        return Resolved(None, Some(root), "/");
      }
      var parts := Segments(path);
      if |parts| == 0 {
        return Unresolved("Invalid path");
      }
      var targetName := parts[|parts| - 1];
      var current := root;
      var i := 0;
      while i < |parts| - 1
        invariant 0 <= i <= |parts| - 1
        invariant current.Dir?
        invariant WalkDirs(root, parts[..|parts| - 1]) == WalkDirs(current, parts[i..|parts| - 1])
      {
        var part := parts[i];
        if !(part in current.children && current.children[part].Dir?) {
          return Unresolved("Path not found or not a directory at: " + part);
        }
        assert parts[i..|parts| - 1][1..] == parts[i + 1..|parts| - 1];
        current := current.children[part];
        i := i + 1;
      }
      var child := if targetName in current.children then Some(current.children[targetName]) else None;
      ResolveSpec(root, path);
      return Resolved(Some(current), child, targetName);
    }

    /**
     * `createFile` (app.js:54-97) and `createDirectory` (app.js:243-286),
     * which differ only in the node they put at the end.
     */
    method Create(path: string, leaf: NewLeaf) returns (ok: bool)
      requires Valid()
      modifies this
      ensures (ok, root) == CreateNode(old(root), path, leaf)
      ensures Valid()
    {
      CreateKeepsValid(root, path, leaf);
      if path == "/" {
        return false;
      }
      var parts := Segments(path);
      if |parts| == 0 {
        return false;
      }
      ok, root := CreateWalk(root, parts, leaf);
    }
    /** `createFile(path, content)`. */
    method CreateFile(path: string, content: string) returns (ok: bool)
      requires Valid()
      modifies this
      ensures (ok, root) == Tree.CreateFile(old(root), path, content)
      ensures Valid()
    {
      ok := Create(path, NewFile(content));
    }

    /** `createDirectory(path)`. */
    method CreateDirectory(path: string) returns (ok: bool)
      requires Valid()
      modifies this
      ensures (ok, root) == Tree.CreateDirectory(old(root), path)
      ensures Valid()
    {
      ok := Create(path, NewDirectory);
    }

    /** `readFile(path)` (app.js:101-120): the content of the file at `path`, or `null`. */
    method ReadFile(path: string) returns (content: Option<string>)
      requires Valid()
      ensures content == Tree.ReadFile(root, path)
      ensures content == if IsFileAt(root, Segments(path)) then Some(Lookup(root, Segments(path)).value.content) else None
    {
      ReadFileSpec(root, path);
      var res := ResolvePath(path);
      if res.Unresolved? {
        return None;
      }
      if res.current.Some? && res.current.value.File? {
        return Some(res.current.value.content);
      }
      return None;
    }

    /** `updateFile(path, newContent)` (app.js:124-144): overwrite the content of an existing file. */
    method UpdateFile(path: string, newContent: string) returns (ok: bool)
      requires Valid()
      modifies this
      ensures (ok, root) == Tree.UpdateFile(old(root), path, newContent)
      ensures ok <==> IsFileAt(old(root), Segments(path))
      ensures Valid()
    {
      UpdateFileOutcome(root, path, newContent);
      UpdateFileKeepsValid(root, path, newContent);
      var res := ResolvePath(path);
      if res.Unresolved? {
        return false;
      }
      if res.current.Some? && res.current.value.File? {
        root := SetAt(root, Segments(path), res.current.value.(content := newContent));
        return true;
      }
      return false;
    }

    /** `deleteFile(path)` (app.js:149-177): detach the file from its parent. */
    method DeleteFile(path: string) returns (ok: bool)
      requires Valid()
      modifies this
      ensures (ok, root) == Tree.DeleteFile(old(root), path)
      ensures ok <==> IsFileAt(old(root), Segments(path))
      ensures Valid()
    {
      DeleteFileOutcome(root, path);
      DeleteFileKeepsValid(root, path);
      if path == "/" {
        return false;
      }
      var res := ResolvePath(path);
      if res.Unresolved? || res.current.None? || !res.current.value.File? {
        return false;
      }
      if res.parent.None? || res.targetName !in res.parent.value.children {
        return false;
      }
      root := SetAt(root, DropLast(Segments(path)), RemoveChild(res.parent.value, res.targetName));
      return true;
    }

    /** `deleteDirectory(path)` (app.js:182-215): detach an empty directory from its parent. */
    method DeleteDirectory(path: string) returns (ok: bool)
      requires Valid()
      modifies this
      ensures (ok, root) == Tree.DeleteDirectory(old(root), path)
      ensures ok <==> Segments(path) != [] && IsDirAt(old(root), Segments(path))
                      && |Lookup(old(root), Segments(path)).value.children| == 0
      ensures Valid()
    {
      DeleteDirectoryOutcome(root, path);
      DeleteDirectoryKeepsValid(root, path);
      if path == "/" {
        return false;
      }
      var res := ResolvePath(path);
      if res.Unresolved? || res.current.None? || !res.current.value.Dir? {
        return false;
      }
      if |res.current.value.children| > 0 {
        return false;
      }
      if res.parent.None? || res.targetName !in res.parent.value.children {
        return false;
      }
      root := SetAt(root, DropLast(Segments(path)), RemoveChild(res.parent.value, res.targetName));
      return true;
    }

    /** `listDirectoryContents(path)` (app.js:220-239): the names in the directory, in enumeration order. */
    method ListDirectoryContents(path: string) returns (names: Option<seq<string>>)
      requires Valid()
      ensures names == Tree.ListDirectoryContents(root, path)
      ensures names.Some? <==> (path == "/" || Segments(path) != []) && IsDirAt(root, Segments(path))
      ensures names.Some? ==> forall k :: k in names.value <==> k in Lookup(root, Segments(path)).value.children
    {
      ListSpec(root, path);
      if Tree.ListDirectoryContents(root, path).Some? {
        ListedNamesAreChildren(root, path);
      }
      var res := ResolvePath(path);
      if res.Unresolved? {
        return None;
      }
      if res.current.Some? && res.current.value.Dir? {
        return Some(res.current.value.order);
      }
      return None;
    }

    /** `getAllFilePaths()` (app.js:574-586) from the root: the canonical path of every file. */
    method GetAllFilePaths() returns (paths: seq<string>)
      requires Valid()
      ensures paths == AllFilePaths(root, "/")
      ensures forall x :: x in paths <==> x == Canon(Segments(x)) && IsFileAt(root, Segments(x))
    {
      paths := Traverse(root, "/");
      forall x
        ensures x in paths <==> x == Canon(Segments(x)) && IsFileAt(root, Segments(x))
      {
        AllFilePathsSpec(root, x);
      }
    }
  }

  /**
   * The loop of app.js:64-96 (and 253-285): descend from the root through all
   * segments but the last, creating each missing directory on the way, then
   * add the new node under the last segment. A file in the way or an existing
   * target stops the walk with `false`; directories created before that stay.
   */
  method CreateWalk(start: Node, parts: seq<string>, leaf: NewLeaf) returns (ok: bool, newRoot: Node)
    requires start.Dir? && parts != []
    ensures (ok, newRoot) == CreateIn(start, parts, "", leaf)
  {
    ghost var goal := CreateIn(start, parts, "", leaf);
    StartWalking(start, parts, leaf);
    var spine: seq<Node> := [];
    var current := start;
    var constructedPath := "";
    var i := 0;
    while i < |parts| - 1
      invariant Walking(goal, spine, parts, i, current, constructedPath, leaf)
      decreases |parts| - i
    {
      var dirName := parts[i];
      var next: Node;
      if dirName !in current.children {
        next := Dir(dirName, Extend(constructedPath, dirName), map[], []);
      } else if current.children[dirName].File? {
        StopAtFile(goal, spine, parts, i, current, constructedPath, leaf);
        return false, Plug(spine, parts[..i], current);
      } else {
        next := current.children[dirName];
      }
      KeepWalking(goal, spine, parts, i, current, constructedPath, leaf, next);
      spine := spine + [current];
      current := next;
      constructedPath := Extend(constructedPath, dirName);
      i := i + 1;
    }
    LastWalking(goal, spine, parts, i, current, constructedPath, leaf);
    ok, newRoot := AttachLeaf(spine, parts[..i], current, parts[i], constructedPath, leaf);
  }

  /** The last segment of the walk (app.js:81-96): an existing name fails, a new one gets the leaf. */
  method AttachLeaf(spine: seq<Node>, names: seq<string>, current: Node, targetName: string, constructedPath: string,
                    leaf: NewLeaf) returns (ok: bool, newRoot: Node)
    requires |spine| == |names| && AllDirs(spine) && current.Dir?
    ensures ok == CreateIn(current, [targetName], constructedPath, leaf).0
    ensures newRoot == Plug(spine, names, CreateIn(current, [targetName], constructedPath, leaf).1)
  {
    var here := Extend(constructedPath, targetName);
    LastStep(current, targetName, constructedPath, leaf);
    if targetName in current.children {
      return false, Plug(spine, names, current);
    }
    return true, Plug(spine, names, SetChild(current, targetName, MakeLeaf(leaf, targetName, here)));
  }

  /** The invariant of `Traverse` carried over the `i`-th key, which contributes `added`. */
  lemma KeepTraversing(paths: seq<string>, n: Node, i: nat, at: string, added: seq<string>)
    requires n.Dir? && i < |n.order| && added == Contribution(n, i, at)
    ensures (paths + added) + FilesFrom(n, i + 1, at) == paths + FilesFrom(n, i, at)
  {
  }

  /** `getAllFilePaths(currentVfsNode, currentPath)`: the loop over the children, recursing into directories. */
  method Traverse(n: Node, at: string) returns (paths: seq<string>)
    requires n.Dir?
    ensures paths == AllFilePaths(n, at)
    decreases n
  {
    paths := [];
    var i := 0;
    while i < |n.order|
      invariant 0 <= i <= |n.order|
      invariant paths + FilesFrom(n, i, at) == AllFilePaths(n, at)
    {
      var name := n.order[i];
      var childPath := ChildPath(at, name);
      if name in n.children {
        var child := n.children[name];
        if child.File? {
          KeepTraversing(paths, n, i, at, [childPath]);
          paths := paths + [childPath];
        } else {
          var below := Traverse(child, childPath);
          KeepTraversing(paths, n, i, at, below);
          paths := paths + below;
        }
      } else {
        KeepTraversing(paths, n, i, at, []);
      }
      i := i + 1;
    }
  }
}
