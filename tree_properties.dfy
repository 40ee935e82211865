/**
 * What the tree operations of module Tree do, stated by `Lookup` and `View`
 * and proved once for all trees and paths.
 */
module TreeProperties {
  import opened Wrappers
  import opened Paths
  import opened Tree

  // ---------------------------------------------------------------------
  // Lookup

  lemma {:induction false} LookupAppend(n: Node, p: seq<string>, s: seq<string>)
    ensures Lookup(n, p + s) == match Lookup(n, p) case None => None case Some(m) => Lookup(m, s)
  {
    if p == [] {
      assert p + s == s;
    } else {
      assert (p + s)[1..] == p[1..] + s;
      if n.Dir? && p[0] in n.children {
        LookupAppend(n.children[p[0]], p[1..], s);
      }
    }
  }

  /** Files are leaves: nothing is found below one. */
  lemma LookupBelowFile(n: Node, q: seq<string>, s: seq<string>)
    requires IsFileAt(n, q) && s != []
    ensures Lookup(n, q + s) == None
  {
    LookupAppend(n, q, s);
  }

  /** Every node of a well-formed tree is well formed at its own position. */
  lemma {:induction false} LookupWellFormed(n: Node, at: seq<string>, q: seq<string>)
    requires WellFormed(n, at) && Lookup(n, q).Some?
    ensures WellFormed(Lookup(n, q).value, at + q)
  {
    if q == [] {
      assert at + q == at;
    } else {
      assert at + q == (at + [q[0]]) + q[1..];
      LookupWellFormed(n.children[q[0]], at + [q[0]], q[1..]);
    }
  }

  /** The node found at `q` in a well-formed tree carries the last segment as its name and the canonical path of `q`. */
  lemma FoundNodeIsCanonical(root: Node, q: seq<string>)
    requires ValidRoot(root) && Lookup(root, q).Some?
    ensures Lookup(root, q).value.name == NameAt(q) && Lookup(root, q).value.path == Canon(q)
  {
    LookupWellFormed(root, [], q);
    assert [] + q == q;
  }

  // ---------------------------------------------------------------------
  // _resolvePath

  lemma {:induction false} WalkDirsLookup(d: Node, segs: seq<string>)
    requires d.Dir?
    ensures WalkDirs(d, segs).Ok? <==> IsDirAt(d, segs)
    ensures WalkDirs(d, segs).Ok? ==> Some(WalkDirs(d, segs).value) == Lookup(d, segs)
  {
    if segs != [] && segs[0] in d.children {
      assert Lookup(d, segs) == Lookup(d.children[segs[0]], segs[1..]);
      if d.children[segs[0]].Dir? {
        WalkDirsLookup(d.children[segs[0]], segs[1..]);
      }
    }
  }

  /** Looking up a non-empty list is looking up the last segment in the directory reached by the others. */
  lemma LookupLast(n: Node, segs: seq<string>)
    requires segs != []
    ensures Lookup(n, segs) ==
      if IsDirAt(n, DropLast(segs)) then ChildOf(Lookup(n, DropLast(segs)).value, segs[|segs| - 1]) else None
  {
    var init := DropLast(segs);
    var name := segs[|segs| - 1];
    assert segs == init + [name];
    LookupAppend(n, init, [name]);
    if Lookup(n, init).Some? {
      var m := Lookup(n, init).value;
      assert Lookup(m, [name]) == if m.Dir? && name in m.children then Lookup(m.children[name], []) else None;
    }
  }

  /**
   * `_resolvePath('/')` gives the root with no parent. Any other path resolves
   * exactly when it has a segment and all its segments but the last lead
   * through directories; then `parent` is the directory so reached, `current`
   * what its children hold under the last segment (possibly nothing), and
   * `targetName` the last segment.
   */
  lemma ResolveSpec(root: Node, path: string)
    requires root.Dir?
    ensures path == "/" ==> Resolve(root, path) == Resolved(None, Some(root), "/")
    ensures path != "/" ==>
      (Resolve(root, path).Resolved? <==> Segments(path) != [] && IsDirAt(root, DropLast(Segments(path))))
    ensures path != "/" && Resolve(root, path).Resolved? ==>
      var segs := Segments(path);
      && Resolve(root, path).parent == Lookup(root, DropLast(segs))
      && Resolve(root, path).current == Lookup(root, segs)
      && Resolve(root, path).targetName == segs[|segs| - 1]
  {
    var segs := Segments(path);
    if path != "/" && segs != [] {
      WalkDirsLookup(root, DropLast(segs));
      LookupLast(root, segs);
    }
  }

  /** A path that does not resolve has nothing at its segments. */
  lemma UnresolvedFindsNothing(root: Node, path: string)
    requires root.Dir? && Resolve(root, path).Unresolved?
    ensures Segments(path) == [] || Lookup(root, Segments(path)) == None
  {
    var segs := Segments(path);
    if path != "/" && segs != [] {
      WalkDirsLookup(root, DropLast(segs));
      LookupLast(root, segs);
    }
  }

  // ---------------------------------------------------------------------
  // readFile and listDirectoryContents

  /** `readFile` returns the content exactly when the path leads to a file, and `null` otherwise (the root included). */
  lemma ReadFileSpec(root: Node, path: string)
    requires root.Dir?
    ensures ReadFile(root, path) ==
      if IsFileAt(root, Segments(path)) then Some(Lookup(root, Segments(path)).value.content) else None
  {
    ResolveSpec(root, path);
    RootHasNoSegments();
    if Resolve(root, path).Unresolved? {
      UnresolvedFindsNothing(root, path);
    }
  }

  /**
   * `listDirectoryContents` gives the enumeration order of a directory (the
   * root for `'/'`) and `null` for a file, a missing target, or a path
   * without segments other than `'/'` itself.
   */
  lemma ListSpec(root: Node, path: string)
    requires root.Dir?
    ensures ListDirectoryContents(root, path) ==
      if (path == "/" || Segments(path) != []) && IsDirAt(root, Segments(path))
      then Some(Lookup(root, Segments(path)).value.order)
      else None
  {
    ResolveSpec(root, path);
    RootHasNoSegments();
    if Resolve(root, path).Unresolved? {
      UnresolvedFindsNothing(root, path);
    }
  }

  /** In a well-formed tree the listing names every child exactly once and nothing else. */
  lemma ListedNamesAreChildren(root: Node, path: string)
    requires ValidRoot(root) && ListDirectoryContents(root, path).Some?
    ensures var names := ListDirectoryContents(root, path).value;
      && IsDirAt(root, Segments(path))
      && Distinct(names)
      && forall k :: k in names <==> k in Lookup(root, Segments(path)).value.children
  {
    ListSpec(root, path);
    LookupWellFormed(root, [], Segments(path));
  }

  // ---------------------------------------------------------------------
  // Replacing a node in place

  /** A listed name is a proper segment with a child below the listed directory. */
  lemma ListedItemIsChild(tree: Node, targetPath: string, item: string)
    requires ValidRoot(tree)
    requires ListDirectoryContents(tree, targetPath).Some?
    requires item in ListDirectoryContents(tree, targetPath).value
    ensures IsDirAt(tree, Segments(targetPath))
    ensures IsSegment(item) && item in Lookup(tree, Segments(targetPath)).value.children
    ensures Lookup(tree, Segments(targetPath) + [item]) == Some(Lookup(tree, Segments(targetPath)).value.children[item])
  {
    var dirSegs := Segments(targetPath);
    ListedNamesAreChildren(tree, targetPath);
    var dir := Lookup(tree, dirSegs).value;
    assert item in dir.children;
    LookupWellFormed(tree, [], dirSegs);
    LookupAppend(tree, dirSegs, [item]);
  }

  /** A listed item's full path resolves to that child. */
  lemma ListedItemResolves(tree: Node, targetPath: string, item: string)
    requires ValidRoot(tree)
    requires ListDirectoryContents(tree, targetPath).Some?
    requires item in ListDirectoryContents(tree, targetPath).value
    ensures var res := Resolve(tree, ChildPath(targetPath, item));
      && res.Resolved?
      && res.current == Lookup(tree, Segments(targetPath) + [item])
      && res.current.Some?
  {
    ListedItemIsChild(tree, targetPath, item);
    var segs := Segments(targetPath) + [item];
    ChildPathSegments(targetPath, item);
    RootHasNoSegments();
    assert ChildPath(targetPath, item) != "/";
    assert DropLast(segs) == Segments(targetPath);
    ResolveSpec(tree, ChildPath(targetPath, item));
  }

  /** Replacing the node at `q` changes what is seen at and below `q` and nothing else. */
  lemma {:induction false} ViewSetAt(n: Node, q: seq<string>, x: Node, r: seq<string>)
    requires Lookup(n, q).Some?
    ensures View(SetAt(n, q, x), r) == if IsPrefix(q, r) then View(x, r[|q|..]) else View(n, r)
  {
    if q == [] {
      assert r[|q|..] == r;
    } else if r != [] {
      if r[0] == q[0] {
        ViewSetAt(n.children[q[0]], q[1..], x, r[1..]);
        assert IsPrefix(q, r) <==> IsPrefix(q[1..], r[1..]) by {
          if |q| <= |r| {
            assert r[..|q|] == [r[0]] + r[1..][..|q| - 1];
            assert q == [q[0]] + q[1..];
          }
        }
        if IsPrefix(q, r) {
          assert r[|q|..] == r[1..][|q[1..]|..];
        }
      }
    }
  }

  /** Replacing the node at `q` keeps the order of every directory above it and away from it. */
  lemma {:induction false} OrderSetAt(n: Node, q: seq<string>, x: Node, r: seq<string>)
    requires Lookup(n, q).Some?
    ensures OrderAt(SetAt(n, q, x), r) == if IsPrefix(q, r) then OrderAt(x, r[|q|..]) else OrderAt(n, r)
  {
    if q == [] {
      assert r[|q|..] == r;
    } else if r != [] {
      if r[0] == q[0] {
        OrderSetAt(n.children[q[0]], q[1..], x, r[1..]);
        PrefixCons(q, r);
        if IsPrefix(q, r) {
          assert r[|q|..] == r[1..][|q[1..]|..];
        }
      }
    }
  }

  /** Looking up through a first segment. */
  lemma LookupCons(d: Node, name: string, s: seq<string>)
    ensures Lookup(d, [name] + s) == if d.Dir? && name in d.children then Lookup(d.children[name], s) else None
  {
    assert ([name] + s)[1..] == s;
  }

  lemma ViewRemoveChild(d: Node, k: string, s: seq<string>)
    requires d.Dir?
    ensures View(RemoveChild(d, k), s) == if s != [] && s[0] == k then None else View(d, s)
  {
  }

  /** Looking up below a child that was just set reaches the new child. */
  lemma LookupSetChild(d: Node, k: string, c: Node, s: seq<string>)
    requires d.Dir?
    ensures Lookup(SetChild(d, k, c), [k] + s) == Lookup(c, s)
  {
    assert ([k] + s)[1..] == s;
  }

  lemma SetChildKeepsWellFormed(d: Node, at: seq<string>, k: string, c: Node)
    requires WellFormed(d, at) && d.Dir? && IsSegment(k) && WellFormed(c, at + [k])
    ensures WellFormed(SetChild(d, k, c), at)
  {
    var r := SetChild(d, k, c);
    assert OrderMatches(r.children, r.order) by {
      if k !in d.children {
        assert k !in d.order;
      }
    }
  }

  lemma RemoveChildKeepsWellFormed(d: Node, at: seq<string>, k: string)
    requires WellFormed(d, at) && d.Dir?
    ensures WellFormed(RemoveChild(d, k), at)
  {
  }

  lemma {:induction false} SetAtKeepsWellFormed(n: Node, at: seq<string>, q: seq<string>, x: Node)
    requires WellFormed(n, at) && Lookup(n, q).Some? && WellFormed(x, at + q)
    ensures WellFormed(SetAt(n, q, x), at)
  {
    if q == [] {
      assert at + q == at;
    } else {
      var k := q[0];
      assert at + q == (at + [k]) + q[1..];
      SetAtKeepsWellFormed(n.children[k], at + [k], q[1..], x);
      SetChildKeepsWellFormed(n, at, k, SetAt(n.children[k], q[1..], x));
    }
  }

  // ---------------------------------------------------------------------
  // updateFile

  /** `updateFile` succeeds exactly on an existing file; on failure the tree is unchanged. */
  lemma UpdateFileOutcome(root: Node, path: string, newContent: string)
    requires root.Dir?
    ensures UpdateFile(root, path, newContent).0 <==> IsFileAt(root, Segments(path))
    ensures !UpdateFile(root, path, newContent).0 ==> UpdateFile(root, path, newContent).1 == root
  {
    ReadFileSpec(root, path);
  }

  /** A successful `updateFile` changes the content of that one file and nothing else in the tree. */
  lemma UpdateFileView(root: Node, path: string, newContent: string, r: seq<string>)
    requires root.Dir?
    ensures UpdateFile(root, path, newContent).0 ==>
      View(UpdateFile(root, path, newContent).1, r) ==
        if r == Segments(path) then Some(FileEntry(newContent)) else View(root, r)
  {
    var segs := Segments(path);
    var res := UpdateFile(root, path, newContent);
    if res.0 {
      var resolution := Resolve(root, path);
      assert resolution.Resolved? && resolution.current.Some? && resolution.current.value.File?;
      assert path != "/";
      ResolveSpec(root, path);
      var file := resolution.current.value;
      var updated := file.(content := newContent);
      assert Lookup(root, segs) == Some(file);
      assert res.1 == SetAt(root, segs, updated);
      ViewSetAt(root, segs, updated, r);
      if IsPrefix(segs, r) && r != segs {
        var s := r[|segs|..];
        assert r == segs + s;
        LookupBelowFile(root, segs, s);
        assert View(updated, s) == None;
      }
    }
  }

  /** Reading a file right after a successful `updateFile` gives the new content. */
  lemma ReadAfterUpdate(root: Node, path: string, newContent: string)
    requires root.Dir?
    ensures UpdateFile(root, path, newContent).0 ==>
      ReadFile(UpdateFile(root, path, newContent).1, path) == Some(newContent)
  {
    var t := UpdateFile(root, path, newContent).1;
    if UpdateFile(root, path, newContent).0 {
      UpdateFileView(root, path, newContent, Segments(path));
      ReadFileSpec(t, path);
    }
  }

  /** `updateFile` changes the order of no directory. */
  lemma UpdateFileOrder(root: Node, path: string, newContent: string, r: seq<string>)
    requires root.Dir?
    ensures OrderAt(UpdateFile(root, path, newContent).1, r) == OrderAt(root, r)
  {
    var segs := Segments(path);
    UpdateFileOutcome(root, path, newContent);
    if UpdateFile(root, path, newContent).0 {
      ResolveSpec(root, path);
      var file := Lookup(root, segs).value;
      var updated := file.(content := newContent);
      OrderSetAt(root, segs, updated, r);
      if IsPrefix(segs, r) {
        var s := r[|segs|..];
        assert r == segs + s;
        if s != [] {
          LookupBelowFile(root, segs, s);
        } else {
          assert r == segs;
        }
      }
    }
  }

  lemma UpdateFileKeepsValid(root: Node, path: string, newContent: string)
    requires ValidRoot(root)
    ensures ValidRoot(UpdateFile(root, path, newContent).1)
  {
    var segs := Segments(path);
    if UpdateFile(root, path, newContent).0 {
      UpdateFileOutcome(root, path, newContent);
      ResolveSpec(root, path);
      RootHasNoSegments();
      LookupWellFormed(root, [], segs);
      assert [] + segs == segs;
      SetAtKeepsWellFormed(root, [], segs, Lookup(root, segs).value.(content := newContent));
    }
  }

  // ---------------------------------------------------------------------
  // deleteFile and deleteDirectory

  /** `deleteFile` succeeds exactly on an existing file (never on `'/'`); on failure the tree is unchanged. */
  lemma DeleteFileOutcome(root: Node, path: string)
    requires root.Dir?
    ensures DeleteFile(root, path).0 <==> IsFileAt(root, Segments(path))
    ensures !DeleteFile(root, path).0 ==> DeleteFile(root, path).1 == root
  {
    RootHasNoSegments();
    if path != "/" {
      FoundAtResolved(root, path);
    }
  }

  /**
   * `deleteDirectory` succeeds exactly on an existing directory with no
   * children (never on `'/'`, never recursively); on failure the tree is unchanged.
   */
  lemma DeleteDirectoryOutcome(root: Node, path: string)
    requires root.Dir?
    ensures DeleteDirectory(root, path).0 <==>
      Segments(path) != [] && IsDirAt(root, Segments(path)) && |Lookup(root, Segments(path)).value.children| == 0
    ensures !DeleteDirectory(root, path).0 ==> DeleteDirectory(root, path).1 == root
  {
    RootHasNoSegments();
    if path != "/" {
      FoundAtResolved(root, path);
    }
  }

  /**
   * Away from the root, the node at a path's segments is exactly the `current`
   * of a resolved path, and it is then a child of `parent` under `targetName`.
   */
  lemma FoundAtResolved(root: Node, path: string)
    requires root.Dir? && path != "/"
    ensures Segments(path) != [] && Lookup(root, Segments(path)).Some? <==>
      Resolve(root, path).Resolved? && Resolve(root, path).current.Some?
    ensures Resolve(root, path).Resolved? && Resolve(root, path).current.Some? ==>
      && Resolve(root, path).current == Lookup(root, Segments(path))
      && Resolve(root, path).parent.Some?
      && Resolve(root, path).targetName in Resolve(root, path).parent.value.children
  {
    ResolveSpec(root, path);
    if Resolve(root, path).Unresolved? {
      UnresolvedFindsNothing(root, path);
    }
  }

  /** Detaching the leaf-like node at `segs` from its parent removes that one position and changes nothing else. */
  lemma DetachView(root: Node, segs: seq<string>, r: seq<string>)
    requires segs != [] && Lookup(root, segs).Some?
    requires forall s :: s != [] ==> Lookup(root, segs + s) == None
    ensures IsDirAt(root, DropLast(segs))
    ensures View(SetAt(root, DropLast(segs), RemoveChild(Lookup(root, DropLast(segs)).value, segs[|segs| - 1])), r) ==
      if r == segs then None else View(root, r)
  {
    var init := DropLast(segs);
    var name := segs[|segs| - 1];
    assert segs == init + [name];
    LookupAppend(root, init, [name]);
    var parent := Lookup(root, init).value;
    ViewSetAt(root, init, RemoveChild(parent, name), r);
    if IsPrefix(init, r) {
      if |r| > |segs| && r[|init|] == name {
        assert Lookup(root, r) == None by {
          var rest := r[|segs|..];
          assert r == segs + rest;
          assert Lookup(root, segs + rest) == None;
        }
      }
      DetachViewBelow(root, init, name, r);
    } else {
      assert r != segs by {
        assert segs[..|init|] == init;
      }
    }
  }

  lemma DetachViewBelow(root: Node, init: seq<string>, name: string, r: seq<string>)
    requires IsDirAt(root, init) && IsPrefix(init, r)
    requires |r| > |init| + 1 && r[|init|] == name ==> Lookup(root, r) == None
    ensures View(RemoveChild(Lookup(root, init).value, name), r[|init|..]) ==
      if r == init + [name] then None else View(root, r)
  {
    var parent := Lookup(root, init).value;
    var s := r[|init|..];
    assert r == init + s;
    LookupAppend(root, init, s);
    assert View(root, r) == View(parent, s);
    ViewRemoveChild(parent, name, s);
    if |s| == 1 && s[0] == name {
      assert r == init + [name];
    }
  }

  /** The keys of an order that may be missing; a missing directory has none. */
  function OrderOrEmpty(o: Option<seq<string>>): seq<string> {
    if o.Some? then o.value else []
  }

  /** Removing a key from an enumeration order keeps the other keys in their order. */
  lemma {:induction false} WithoutKeepsOrder(a: seq<string>, k: string, b: seq<string>)
    requires k !in a && k !in b
    ensures Without(a + [k] + b, k) == a + b
  {
    var s := a + [k] + b;
    if a == [] {
      assert s[0] == k && s[1..] == b;
      WithoutAbsent(b, k);
    } else {
      assert s[0] == a[0] != k;
      assert s[1..] == a[1..] + [k] + b;
      WithoutKeepsOrder(a[1..], k, b);
      assert Without(s, k) == [a[0]] + Without(s[1..], k);
      assert a + b == [a[0]] + (a[1..] + b);
    }
  }

  lemma {:induction false} WithoutAbsent(s: seq<string>, k: string)
    requires k !in s
    ensures Without(s, k) == s
  {
    if s != [] {
      WithoutAbsent(s[1..], k);
      assert s[0] != k;
      assert s == [s[0]] + s[1..];
    }
  }

  /**
   * Detaching the node at `segs` takes its name out of its parent's order
   * and drops the orders at and below it; every other order stays.
   */
  lemma DetachOrder(root: Node, segs: seq<string>, r: seq<string>)
    requires segs != [] && Lookup(root, segs).Some?
    ensures IsDirAt(root, DropLast(segs))
    ensures OrderAt(SetAt(root, DropLast(segs), RemoveChild(Lookup(root, DropLast(segs)).value, segs[|segs| - 1])), r) ==
      if IsPrefix(segs, r) then None
      else if r == DropLast(segs) then Some(Without(OrderAt(root, r).value, segs[|segs| - 1]))
      else OrderAt(root, r)
  {
    var init := DropLast(segs);
    var name := segs[|segs| - 1];
    assert segs == init + [name];
    LookupAppend(root, init, [name]);
    var parent := Lookup(root, init).value;
    PrefixOfChild(init, name, r);
    if IsPrefix(init, r) {
      DetachOrderBelow(root, init, parent, name, r);
    } else {
      OrderSetAt(root, init, RemoveChild(parent, name), r);
    }
  }

  /** `DetachOrder` at the positions at and below the parent directory `init`. */
  lemma DetachOrderBelow(root: Node, init: seq<string>, parent: Node, name: string, r: seq<string>)
    requires Lookup(root, init) == Some(parent) && parent.Dir? && IsPrefix(init, r)
    ensures OrderAt(SetAt(root, init, RemoveChild(parent, name)), r) ==
      if IsPrefix(init + [name], r) then None
      else if r == init then Some(Without(parent.order, name))
      else OrderAt(root, r)
  {
    var s := r[|init|..];
    assert r == init + s;
    OrderSetAt(root, init, RemoveChild(parent, name), r);
    PrefixOfChild(init, name, r);
    RemovedOrder(parent, name, s);
    if s != [] && s[0] != name {
      LookupAppend(root, init, s);
    }
  }

  /** Where `r` lies relative to `init` and its child `init + [name]`, read off the rest of `r`. */
  lemma PrefixOfChild(init: seq<string>, name: string, r: seq<string>)
    ensures IsPrefix(init + [name], r) ==> IsPrefix(init, r)
    ensures IsPrefix(init, r) ==>
      var s := r[|init|..];
      && (IsPrefix(init + [name], r) <==> s != [] && s[0] == name)
      && (r == init <==> s == [])
  {
    if IsPrefix(init + [name], r) {
      assert r[..|init|] == (init + [name])[..|init|] == init;
    }
    if IsPrefix(init, r) && |r| > |init| {
      assert r[..|init| + 1] == init + [r[|init|]];
    }
  }

  /** Removing child `name` takes it out of the order and drops every order below it. */
  lemma RemovedOrder(parent: Node, name: string, s: seq<string>)
    requires parent.Dir?
    ensures OrderAt(RemoveChild(parent, name), s) ==
      if s == [] then Some(Without(parent.order, name))
      else if s[0] == name then None
      else OrderAt(parent, s)
  {
    if s != [] {
      assert s == [s[0]] + s[1..];
      LookupCons(RemoveChild(parent, name), s[0], s[1..]);
      LookupCons(parent, s[0], s[1..]);
    }
  }

  /** A successful `deleteFile` takes the name out of its directory's order and changes no other order. */
  lemma DeleteFileOrder(root: Node, path: string, r: seq<string>)
    requires root.Dir?
    ensures var segs := Segments(path);
      DeleteFile(root, path).0 ==>
        OrderAt(DeleteFile(root, path).1, r) ==
          if IsPrefix(segs, r) then None
          else if r == DropLast(segs) then Some(Without(OrderOrEmpty(OrderAt(root, r)), segs[|segs| - 1]))
          else OrderAt(root, r)
  {
    if DeleteFile(root, path).0 {
      var segs := Segments(path);
      DeleteFileOutcome(root, path);
      ResolveSpec(root, path);
      DetachOrder(root, segs, r);
    }
  }

  /** A successful `deleteDirectory` takes the name out of its parent's order and changes no other order. */
  lemma DeleteDirectoryOrder(root: Node, path: string, r: seq<string>)
    requires root.Dir?
    ensures var segs := Segments(path);
      DeleteDirectory(root, path).0 ==>
        OrderAt(DeleteDirectory(root, path).1, r) ==
          if IsPrefix(segs, r) then None
          else if r == DropLast(segs) then Some(Without(OrderOrEmpty(OrderAt(root, r)), segs[|segs| - 1]))
          else OrderAt(root, r)
  {
    if DeleteDirectory(root, path).0 {
      var segs := Segments(path);
      DeleteDirectoryOutcome(root, path);
      ResolveSpec(root, path);
      DetachOrder(root, segs, r);
    }
  }

  /** A successful `deleteFile` removes exactly that file entry. */
  lemma DeleteFileView(root: Node, path: string, r: seq<string>)
    requires root.Dir?
    ensures DeleteFile(root, path).0 ==>
      View(DeleteFile(root, path).1, r) == if r == Segments(path) then None else View(root, r)
  {
    if DeleteFile(root, path).0 {
      var segs := Segments(path);
      DeleteFileOutcome(root, path);
      ResolveSpec(root, path);
      forall s | s != [] ensures Lookup(root, segs + s) == None {
        LookupBelowFile(root, segs, s);
      }
      DetachView(root, segs, r);
    }
  }

  /** A successful `deleteDirectory` removes exactly that (empty) directory entry. */
  lemma DeleteDirectoryView(root: Node, path: string, r: seq<string>)
    requires root.Dir?
    ensures DeleteDirectory(root, path).0 ==>
      View(DeleteDirectory(root, path).1, r) == if r == Segments(path) then None else View(root, r)
  {
    if DeleteDirectory(root, path).0 {
      var segs := Segments(path);
      DeleteDirectoryOutcome(root, path);
      ResolveSpec(root, path);
      forall s | s != [] ensures Lookup(root, segs + s) == None {
        LookupAppend(root, segs, s);
      }
      DetachView(root, segs, r);
    }
  }

  /** After a successful `deleteFile` the file can no longer be read. */
  lemma ReadAfterDelete(root: Node, path: string)
    requires root.Dir?
    ensures DeleteFile(root, path).0 ==> ReadFile(DeleteFile(root, path).1, path) == None
  {
    var t := DeleteFile(root, path).1;
    if DeleteFile(root, path).0 {
      DeleteFileView(root, path, Segments(path));
      ReadFileSpec(t, path);
    }
  }

  lemma DeleteFileKeepsValid(root: Node, path: string)
    requires ValidRoot(root)
    ensures ValidRoot(DeleteFile(root, path).1)
  {
    if DeleteFile(root, path).0 {
      DetachKeepsValid(root, path);
    }
  }

  lemma DeleteDirectoryKeepsValid(root: Node, path: string)
    requires ValidRoot(root)
    ensures ValidRoot(DeleteDirectory(root, path).1)
  {
    if DeleteDirectory(root, path).0 {
      DetachKeepsValid(root, path);
    }
  }

  lemma DetachKeepsValid(root: Node, path: string)
    requires ValidRoot(root) && path != "/" && Resolve(root, path).Resolved?
    ensures var res := Resolve(root, path);
      res.parent.Some? ==>
      ValidRoot(SetAt(root, DropLast(Segments(path)), RemoveChild(res.parent.value, res.targetName)))
  {
    ResolveSpec(root, path);
    var init := DropLast(Segments(path));
    LookupWellFormed(root, [], init);
    assert [] + init == init;
    RemoveChildKeepsWellFormed(Lookup(root, init).value, init, Resolve(root, path).targetName);
    SetAtKeepsWellFormed(root, [], init, RemoveChild(Lookup(root, init).value, Resolve(root, path).targetName));
  }

  // ---------------------------------------------------------------------
  // createFile and createDirectory

  /** What a create puts at the final segment. */
  function LeafEntry(leaf: NewLeaf): Entry {
    match leaf
    case NewFile(content) => FileEntry(content)
    case NewDirectory => DirEntry
  }

  /** No proper prefix of `segs` leads to a file. */
  predicate NoFileAbove(n: Node, segs: seq<string>) {
    forall j :: 0 < j < |segs| ==> !IsFileAt(n, segs[..j])
  }

  /** Moving the first segment of `q` over to the end of `done`. */
  lemma ShiftSegment(done: seq<string>, q: seq<string>)
    requires q != []
    ensures done + q == (done + [q[0]]) + q[1..]
  {
    assert q == [q[0]] + q[1..];
  }

  lemma PrefixCons(q: seq<string>, rest: seq<string>)
    requires q != [] && rest != [] && q[0] == rest[0]
    ensures IsPrefix(q, rest) <==> IsPrefix(q[1..], rest[1..])
    ensures q == rest <==> q[1..] == rest[1..]
  {
    assert q == [q[0]] + q[1..];
    assert rest == [rest[0]] + rest[1..];
    if |q| <= |rest| {
      assert rest[..|q|] == [rest[0]] + rest[1..][..|q| - 1];
    }
  }

  /** A freshly auto-created directory is empty, so the walk below it never fails. */
  lemma {:induction false} FreshDirAccepts(name: string, path: string, rest: seq<string>, built: string, leaf: NewLeaf)
    requires rest != []
    ensures CreateIn(Dir(name, path, map[], []), rest, built, leaf).0
    decreases |rest|
  {
    if |rest| > 1 {
      var here := Extend(built, rest[0]);
      FreshDirAccepts(rest[0], here, rest[1..], here, leaf);
    }
  }

  /**
   * The walk can fail only before it has inserted anything: once it creates a
   * directory, every later step is inside a fresh empty one. So a failed
   * create leaves the tree exactly as it was, although the source inserts the
   * intermediate directories in place as it goes.
   */
  lemma {:induction false} CreateInFailureUnchanged(d: Node, rest: seq<string>, built: string, leaf: NewLeaf)
    requires d.Dir? && rest != []
    ensures !CreateIn(d, rest, built, leaf).0 ==> CreateIn(d, rest, built, leaf).1 == d
    decreases |rest|
  {
    var name := rest[0];
    var here := Extend(built, name);
    if |rest| > 1 {
      if name !in d.children {
        FreshDirAccepts(name, here, rest[1..], here, leaf);
      } else if d.children[name].Dir? {
        CreateInFailureUnchanged(d.children[name], rest[1..], here, leaf);
        assert d.children[name := d.children[name]] == d.children;
      }
    }
  }

  /** The walk succeeds exactly when the target is absent and no proper prefix of it is a file. */
  lemma {:induction false} CreateInSucceeds(d: Node, rest: seq<string>, built: string, leaf: NewLeaf)
    requires d.Dir? && rest != []
    ensures CreateIn(d, rest, built, leaf).0 <==> Lookup(d, rest).None? && NoFileAbove(d, rest)
    decreases |rest|
  {
    var name := rest[0];
    var here := Extend(built, name);
    assert rest[..1] == [name];
    if |rest| == 1 {
      assert Lookup(d, rest) == if name in d.children then Lookup(d.children[name], []) else None;
    } else if name !in d.children {
      FreshDirAccepts(name, here, rest[1..], here, leaf);
      forall j | 0 < j < |rest|
        ensures !IsFileAt(d, rest[..j])
      {
        assert rest[..j][0] == name;
      }
    } else if d.children[name].File? {
      assert IsFileAt(d, rest[..1]);
    } else {
      var c := d.children[name];
      CreateInSucceeds(c, rest[1..], here, leaf);
      assert Lookup(d, rest) == Lookup(c, rest[1..]);
      forall j | 1 < j < |rest|
        ensures IsFileAt(d, rest[..j]) <==> IsFileAt(c, rest[1..][..j - 1])
      {
        assert rest[..j][1..] == rest[1..][..j - 1];
      }
      if NoFileAbove(c, rest[1..]) {
        forall j | 0 < j < |rest|
          ensures !IsFileAt(d, rest[..j])
        {
          if j > 1 {
            assert !IsFileAt(c, rest[1..][..j - 1]);
          } else {
            assert Lookup(d, rest[..1]) == Some(c);
          }
        }
      }
      if NoFileAbove(d, rest) {
        forall j | 0 < j < |rest| - 1
          ensures !IsFileAt(c, rest[1..][..j])
        {
          assert !IsFileAt(d, rest[..j + 1]);
        }
      }
    }
  }

  /**
   * After a successful walk the target holds the new leaf, every missing
   * proper prefix holds a new directory, and every other position (existing
   * directories on the way included) holds what it held before.
   */
  lemma {:induction false} CreateInView(d: Node, rest: seq<string>, built: string, leaf: NewLeaf, q: seq<string>)
    requires d.Dir? && rest != []
    ensures CreateIn(d, rest, built, leaf).0 ==>
      View(CreateIn(d, rest, built, leaf).1, q) ==
        if q == rest then Some(LeafEntry(leaf))
        else if IsPrefix(q, rest) && Lookup(d, q).None? then Some(DirEntry)
        else View(d, q)
    decreases |rest|
  {
    var name := rest[0];
    var here := Extend(built, name);
    var out := CreateIn(d, rest, built, leaf);
    if out.0 && q != [] {
      if q[0] != name {
        assert !IsPrefix(q, rest);
        assert Lookup(out.1, q) == Lookup(d, q);
      } else {
        PrefixCons(q, rest);
        if |rest| == 1 {
          var made := MakeLeaf(leaf, name, here);
          assert Lookup(out.1, q) == Lookup(made, q[1..]);
          if q[1..] != [] {
            assert Lookup(made, q[1..]) == None;
            assert !IsPrefix(q, rest);
          }
        } else if name !in d.children {
          var newDir := Dir(name, here, map[], []);
          var sub := CreateIn(newDir, rest[1..], here, leaf);
          FreshDirAccepts(name, here, rest[1..], here, leaf);
          CreateInView(newDir, rest[1..], here, leaf, q[1..]);
          assert Lookup(out.1, q) == Lookup(sub.1, q[1..]);
          assert Lookup(d, q) == None;
          if q[1..] != [] {
            assert Lookup(newDir, q[1..]) == None;
          }
        } else {
          var c := d.children[name];
          var sub := CreateIn(c, rest[1..], here, leaf);
          CreateInView(c, rest[1..], here, leaf, q[1..]);
          assert Lookup(out.1, q) == Lookup(sub.1, q[1..]);
          assert Lookup(d, q) == Lookup(c, q[1..]);
        }
      }
    }
  }

  /** The node a successful walk creates carries the last segment as its name and the canonical path. */
  lemma {:induction false} CreatedLeaf(d: Node, rest: seq<string>, built: string, leaf: NewLeaf, done: seq<string>)
    requires d.Dir? && rest != []
    requires built == if done == [] then "" else Canon(done)
    ensures CreateIn(d, rest, built, leaf).0 ==>
      Lookup(CreateIn(d, rest, built, leaf).1, rest) == Some(MakeLeaf(leaf, rest[|rest| - 1], Canon(done + rest)))
    decreases |rest|
  {
    var name := rest[0];
    var here := Extend(built, name);
    CanonSnoc(done, name);
    assert here == Canon(done + [name]);
    if |rest| == 1 {
      assert rest == [name];
      if name !in d.children {
        assert CreateIn(d, rest, built, leaf).1 == SetChild(d, name, MakeLeaf(leaf, name, here));
        LookupSetChild(d, name, MakeLeaf(leaf, name, here), []);
      }
    } else if !(name in d.children && d.children[name].File?) {
      var c := if name in d.children then d.children[name] else Dir(name, here, map[], []);
      CreatedLeaf(c, rest[1..], here, leaf, done + [name]);
      CreatedLeafStep(d, rest, built, leaf, done, c);
    }
  }

  /** One step of `CreatedLeaf`: the walk goes on into child `c` and the result is plugged back under `d`. */
  lemma CreatedLeafStep(d: Node, rest: seq<string>, built: string, leaf: NewLeaf, done: seq<string>, c: Node)
    requires d.Dir? && |rest| > 1 && c.Dir?
    requires c == if rest[0] in d.children then d.children[rest[0]] else Dir(rest[0], Extend(built, rest[0]), map[], [])
    requires !(rest[0] in d.children && d.children[rest[0]].File?)
    requires var sub := CreateIn(c, rest[1..], Extend(built, rest[0]), leaf);
      sub.0 ==> Lookup(sub.1, rest[1..]) == Some(MakeLeaf(leaf, rest[1..][|rest[1..]| - 1], Canon((done + [rest[0]]) + rest[1..])))
    ensures CreateIn(d, rest, built, leaf).0 ==>
      Lookup(CreateIn(d, rest, built, leaf).1, rest) == Some(MakeLeaf(leaf, rest[|rest| - 1], Canon(done + rest)))
  {
    var name := rest[0];
    var sub := CreateIn(c, rest[1..], Extend(built, name), leaf);
    assert CreateIn(d, rest, built, leaf) == (sub.0, SetChild(d, name, sub.1));
    if sub.0 {
      calc {
        Lookup(CreateIn(d, rest, built, leaf).1, rest);
        Lookup(SetChild(d, name, sub.1), [name] + rest[1..]);
        { LookupSetChild(d, name, sub.1, rest[1..]); }
        Lookup(sub.1, rest[1..]);
        Some(MakeLeaf(leaf, rest[1..][|rest[1..]| - 1], Canon((done + [name]) + rest[1..])));
        { ShiftSegment(done, rest); }
        Some(MakeLeaf(leaf, rest[|rest| - 1], Canon(done + rest)));
      }
    }
  }

  /** The walk keeps the tree well formed: auto-created directories get their canonical paths. */
  lemma {:induction false} CreateInKeepsWellFormed(d: Node, rest: seq<string>, built: string, leaf: NewLeaf, done: seq<string>)
    requires d.Dir? && rest != [] && AllSegments(rest) && WellFormed(d, done)
    requires built == if done == [] then "" else Canon(done)
    ensures WellFormed(CreateIn(d, rest, built, leaf).1, done)
    decreases |rest|
  {
    var name := rest[0];
    var here := Extend(built, name);
    CanonSnoc(done, name);
    assert IsSegment(name);
    if |rest| == 1 {
      if name !in d.children {
        SetChildKeepsWellFormed(d, done, name, MakeLeaf(leaf, name, here));
      }
    } else {
      assert AllSegments(rest[1..]);
      if name !in d.children {
        var newDir := Dir(name, here, map[], []);
        CreateInKeepsWellFormed(newDir, rest[1..], here, leaf, done + [name]);
        SetChildKeepsWellFormed(d, done, name, CreateIn(newDir, rest[1..], here, leaf).1);
      } else if d.children[name].Dir? {
        var c := d.children[name];
        CreateInKeepsWellFormed(c, rest[1..], here, leaf, done + [name]);
        SetChildKeepsWellFormed(d, done, name, CreateIn(c, rest[1..], here, leaf).1);
      }
    }
  }

  /**
   * `createFile` / `createDirectory` succeed exactly when the path has a
   * segment, nothing exists at it, and no proper prefix of it is a file; `'/'`
   * and paths without segments fail. A failed call leaves the tree unchanged.
   */
  lemma CreateOutcome(root: Node, path: string, leaf: NewLeaf)
    requires root.Dir?
    ensures CreateNode(root, path, leaf).0 <==>
      Segments(path) != [] && Lookup(root, Segments(path)).None? && NoFileAbove(root, Segments(path))
    ensures !CreateNode(root, path, leaf).0 ==> CreateNode(root, path, leaf).1 == root
  {
    RootHasNoSegments();
    if path != "/" && Segments(path) != [] {
      CreateInSucceeds(root, Segments(path), "", leaf);
      CreateInFailureUnchanged(root, Segments(path), "", leaf);
    }
  }

  /**
   * A successful create inserts exactly one leaf, at the path's segments, plus
   * one directory per missing proper prefix; every existing entry, the
   * directories reused on the way included, is left as it was.
   */
  lemma CreateView(root: Node, path: string, leaf: NewLeaf, q: seq<string>)
    requires root.Dir?
    ensures CreateNode(root, path, leaf).0 ==>
      View(CreateNode(root, path, leaf).1, q) ==
        if q == Segments(path) then Some(LeafEntry(leaf))
        else if IsPrefix(q, Segments(path)) && Lookup(root, q).None? then Some(DirEntry)
        else View(root, q)
  {
    if CreateNode(root, path, leaf).0 {
      CreateInView(root, Segments(path), "", leaf, q);
    }
  }

  /** The order a new leaf has: an empty directory has no keys, a file has no order. */
  function LeafOrder(leaf: NewLeaf): Option<seq<string>> {
    if leaf.NewDirectory? then Some([]) else None
  }

  /**
   * The order at `q` once a walk over `rest` from `d` has succeeded: each
   * directory on the way (an auto-created one counting as empty) gets the
   * next segment appended unless it already had a child of that name; the
   * new leaf has its own order; every other directory keeps its order.
   */
  function CreatedOrder(d: Node, rest: seq<string>, leaf: NewLeaf, q: seq<string>): Option<seq<string>>
    requires rest != []
  {
    if IsPrefix(q, rest) && |q| < |rest| then
      Some(OrderOrEmpty(OrderAt(d, q)) + (if Lookup(d, rest[..|q| + 1]).Some? then [] else [rest[|q|]]))
    else if q == rest then LeafOrder(leaf)
    else OrderAt(d, q)
  }

  lemma {:induction false} CreateInOrder(d: Node, rest: seq<string>, built: string, leaf: NewLeaf, q: seq<string>)
    requires d.Dir? && rest != []
    ensures CreateIn(d, rest, built, leaf).0 ==>
      OrderAt(CreateIn(d, rest, built, leaf).1, q) == CreatedOrder(d, rest, leaf, q)
    decreases |rest|
  {
    var name := rest[0];
    var here := Extend(built, name);
    var out := CreateIn(d, rest, built, leaf);
    if out.0 {
      if q == [] {
        assert rest[..1] == [name];
        LookupCons(d, name, []);
        if |rest| == 1 {
          assert out.1 == SetChild(d, name, MakeLeaf(leaf, name, here));
        } else {
          var c := if name in d.children then d.children[name] else Dir(name, here, map[], []);
          assert out.1 == SetChild(d, name, CreateIn(c, rest[1..], here, leaf).1);
        }
        assert out.1.order == d.order + (if name in d.children then [] else [name]);
        assert IsPrefix(q, rest) && |q| < |rest| && rest[|q|] == name && rest[..|q| + 1] == [name];
        assert [name] + [] == [name];
        assert Lookup(d, [name]).Some? <==> name in d.children;
        assert OrderAt(out.1, q) == Some(out.1.order);
        assert OrderAt(d, q) == Some(d.order);
      } else if q[0] != name {
        assert !IsPrefix(q, rest) && q != rest;
        LookupCons(d, q[0], q[1..]);
        LookupCons(out.1, q[0], q[1..]);
        assert q == [q[0]] + q[1..];
      } else if |rest| == 1 {
        CreateInOrderLast(d, rest, built, leaf, q);
      } else {
        var c := if name in d.children then d.children[name] else Dir(name, here, map[], []);
        CreateInOrder(c, rest[1..], here, leaf, q[1..]);
        CreateInOrderStep(d, rest, built, leaf, q, c);
      }
    }
  }

  /** The last step of `CreateInOrder`: the leaf goes under `d`. */
  lemma CreateInOrderLast(d: Node, rest: seq<string>, built: string, leaf: NewLeaf, q: seq<string>)
    requires d.Dir? && |rest| == 1 && q != [] && q[0] == rest[0]
    ensures CreateIn(d, rest, built, leaf).0 ==>
      OrderAt(CreateIn(d, rest, built, leaf).1, q) == CreatedOrder(d, rest, leaf, q)
  {
    var name := rest[0];
    var made := MakeLeaf(leaf, name, Extend(built, name));
    if CreateIn(d, rest, built, leaf).0 {
      assert CreateIn(d, rest, built, leaf).1 == SetChild(d, name, made);
      assert q == [name] + q[1..];
      LookupCons(SetChild(d, name, made), name, q[1..]);
      LookupCons(d, name, q[1..]);
      PrefixCons(q, rest);
      if q[1..] != [] {
        assert Lookup(made, q[1..]) == None;
      }
    }
  }

  /** One step of `CreateInOrder`: the walk goes on into child `c`, and the result is plugged back under `d`. */
  lemma CreateInOrderStep(d: Node, rest: seq<string>, built: string, leaf: NewLeaf, q: seq<string>, c: Node)
    requires d.Dir? && |rest| > 1 && c.Dir? && q != [] && q[0] == rest[0]
    requires c == if rest[0] in d.children then d.children[rest[0]] else Dir(rest[0], Extend(built, rest[0]), map[], [])
    requires !(rest[0] in d.children && d.children[rest[0]].File?)
    requires var sub := CreateIn(c, rest[1..], Extend(built, rest[0]), leaf);
      sub.0 ==> OrderAt(sub.1, q[1..]) == CreatedOrder(c, rest[1..], leaf, q[1..])
    ensures CreateIn(d, rest, built, leaf).0 ==>
      OrderAt(CreateIn(d, rest, built, leaf).1, q) == CreatedOrder(d, rest, leaf, q)
  {
    var name := rest[0];
    var sub := CreateIn(c, rest[1..], Extend(built, name), leaf);
    assert CreateIn(d, rest, built, leaf) == (sub.0, SetChild(d, name, sub.1));
    if sub.0 {
      calc {
        OrderAt(CreateIn(d, rest, built, leaf).1, q);
        { assert q == [name] + q[1..];
          LookupCons(SetChild(d, name, sub.1), name, q[1..]); }
        OrderAt(sub.1, q[1..]);
        CreatedOrder(c, rest[1..], leaf, q[1..]);
        { CreatedOrderCons(d, rest, built, leaf, q, c); }
        CreatedOrder(d, rest, leaf, q);
      }
    }
  }

  /** The orders `CreateInOrder` describes below `d` are those it describes below the child the walk enters. */
  lemma CreatedOrderCons(d: Node, rest: seq<string>, built: string, leaf: NewLeaf, q: seq<string>, c: Node)
    requires d.Dir? && |rest| > 1 && c.Dir? && q != [] && q[0] == rest[0]
    requires c == if rest[0] in d.children then d.children[rest[0]] else Dir(rest[0], Extend(built, rest[0]), map[], [])
    ensures CreatedOrder(c, rest[1..], leaf, q[1..]) == CreatedOrder(d, rest, leaf, q)
  {
    var name := rest[0];
    assert q == [name] + q[1..];
    LookupCons(d, name, q[1..]);
    PrefixCons(q, rest);
    var isNew := name !in d.children;
    if IsPrefix(q, rest) && |q| < |rest| {
      var next := rest[..|q| + 1];
      assert next == [name] + rest[1..][..|q|];
      assert rest[1..][|q[1..]|] == rest[|q|];
      LookupCons(d, name, rest[1..][..|q|]);
      if isNew {
        assert Lookup(c, rest[1..][..|q|]) == None;
        assert OrderOrEmpty(OrderAt(c, q[1..])) == [];
      }
    } else if isNew && q != rest {
      assert q[1..] != [];
      assert Lookup(c, q[1..]) == None;
    }
  }

  /**
   * A successful create appends each new name to the order of the directory
   * it goes into, so the created node is listed last in its parent; every
   * other directory keeps its order.
   */
  lemma CreateOrder(root: Node, path: string, leaf: NewLeaf, q: seq<string>)
    requires root.Dir?
    ensures CreateNode(root, path, leaf).0 ==>
      OrderAt(CreateNode(root, path, leaf).1, q) == CreatedOrder(root, Segments(path), leaf, q)
  {
    if CreateNode(root, path, leaf).0 {
      CreateOutcome(root, path, leaf);
      RootHasNoSegments();
      CreateInOrder(root, Segments(path), "", leaf, q);
    }
  }

  /** In particular the created name goes last in the order of its parent. */
  lemma CreatedNameLast(root: Node, path: string, leaf: NewLeaf)
    requires root.Dir?
    ensures var segs := Segments(path);
      CreateNode(root, path, leaf).0 ==>
        OrderAt(CreateNode(root, path, leaf).1, DropLast(segs)) ==
          Some(OrderOrEmpty(OrderAt(root, DropLast(segs))) + [segs[|segs| - 1]])
  {
    var segs := Segments(path);
    if CreateNode(root, path, leaf).0 {
      CreateOutcome(root, path, leaf);
      CreateOrder(root, path, leaf, DropLast(segs));
      assert segs[..|DropLast(segs)| + 1] == segs;
    }
  }

  /** After a successful create, resolving the same path finds the new node, named by the last segment, with the canonical path. */
  lemma CreatedNodeResolves(root: Node, path: string, leaf: NewLeaf)
    requires root.Dir?
    ensures var segs := Segments(path);
      CreateNode(root, path, leaf).0 ==>
        && segs != []
        && Resolve(CreateNode(root, path, leaf).1, path).Resolved?
        && Resolve(CreateNode(root, path, leaf).1, path).current
           == Some(MakeLeaf(leaf, segs[|segs| - 1], Canon(segs)))
  {
    var segs := Segments(path);
    var t := CreateNode(root, path, leaf).1;
    if CreateNode(root, path, leaf).0 {
      CreateOutcome(root, path, leaf);
      CreatedLeaf(root, segs, "", leaf, []);
      assert [] + segs == segs;
      LookupLast(t, segs);
      RootHasNoSegments();
      ResolveSpec(t, path);
    }
  }

  lemma CreateKeepsValid(root: Node, path: string, leaf: NewLeaf)
    requires ValidRoot(root)
    ensures ValidRoot(CreateNode(root, path, leaf).1)
  {
    if path != "/" && Segments(path) != [] {
      CreateInKeepsWellFormed(root, Segments(path), "", leaf, []);
    }
  }

  /** Creating the same path a second time fails and leaves the tree as the first call left it. */
  lemma CreateTwice(root: Node, path: string, leaf: NewLeaf, again: NewLeaf)
    requires root.Dir?
    ensures var t := CreateNode(root, path, leaf).1;
      CreateNode(t, path, again) == (false, t)
  {
    var t := CreateNode(root, path, leaf).1;
    CreateOutcome(root, path, leaf);
    CreatedNodeResolves(root, path, leaf);
    if CreateNode(root, path, leaf).0 {
      var segs := Segments(path);
      ResolveSpec(t, path);
      CreateOutcome(t, path, again);
    } else {
      CreateOutcome(root, path, again);
    }
  }

  // ---------------------------------------------------------------------
  // getAllFilePaths

  lemma {:induction false} FilesFromHas(n: Node, i: nat, j: nat, at: string, x: string)
    requires n.Dir? && i <= j < |n.order|
    ensures x in Contribution(n, j, at) ==> x in FilesFrom(n, i, at)
    decreases j - i
  {
    if i < j {
      FilesFromHas(n, i + 1, j, at, x);
    }
  }

  lemma {:induction false} FilesFromWhich(n: Node, i: nat, at: string, x: string) returns (j: nat)
    requires n.Dir? && i <= |n.order| && x in FilesFrom(n, i, at)
    ensures i <= j < |n.order| && x in Contribution(n, j, at)
    decreases |n.order| - i
  {
    if x in Contribution(n, i, at) {
      j := i;
    } else {
      j := FilesFromWhich(n, i + 1, at, x);
    }
  }

  /**
   * Every path `getAllFilePaths` reports below a well-formed directory is the
   * canonical path of a file of that directory.
   */
  lemma {:induction false} AllFilePathsSound(n: Node, done: seq<string>, x: string)
    requires n.Dir? && WellFormed(n, done) && AllSegments(done)
    requires x in AllFilePaths(n, Canon(done))
    ensures IsPrefix(done, Segments(x))
    ensures x == Canon(Segments(x))
    ensures IsFileAt(n, Segments(x)[|done|..])
    decreases n
  {
    var j := FilesFromWhich(n, 0, Canon(done), x);
    var name := n.order[j];
    assert name in n.children;
    var c := n.children[name];
    var down := done + [name];
    assert AllSegments(down);
    ChildPathCanon(done, name);
    if c.File? {
      assert x == Canon(down);
      SoundAtFile(n, done, name, x);
    } else {
      AllFilePathsSound(c, down, x);
      SoundThroughChild(n, done, name, x);
    }
  }

  /** A file directly under `n` is reported under its canonical path. */
  lemma SoundAtFile(n: Node, done: seq<string>, name: string, x: string)
    requires n.Dir? && name in n.children && n.children[name].File?
    requires AllSegments(done + [name]) && x == Canon(done + [name])
    ensures IsPrefix(done, Segments(x))
    ensures x == Canon(Segments(x))
    ensures IsFileAt(n, Segments(x)[|done|..])
  {
    CanonSegments(done + [name]);
    assert Segments(x)[|done|..] == [name];
  }

  /** A file found below child `name` is found below `n`, one segment further up. */
  lemma SoundThroughChild(n: Node, done: seq<string>, name: string, x: string)
    requires n.Dir? && name in n.children
    requires IsPrefix(done + [name], Segments(x))
    requires IsFileAt(n.children[name], Segments(x)[|done + [name]|..])
    ensures IsPrefix(done, Segments(x))
    ensures IsFileAt(n, Segments(x)[|done|..])
  {
    var down := done + [name];
    var segs := Segments(x);
    assert segs[..|done|] == done by {
      assert segs[..|down|][..|done|] == done;
    }
    assert segs[|done|] == name by {
      assert segs[..|down|][|done|] == name;
    }
    assert segs[|done|..][1..] == segs[|down|..];
    assert Lookup(n, segs[|done|..]) == Lookup(n.children[name], segs[|down|..]);
  }

  /** Every file of a well-formed directory is reported, under its canonical path. */
  lemma {:induction false} AllFilePathsComplete(n: Node, done: seq<string>, q: seq<string>)
    requires n.Dir? && WellFormed(n, done) && AllSegments(done)
    requires IsFileAt(n, q)
    ensures Canon(done + q) in AllFilePaths(n, Canon(done))
    decreases n
  {
    var name := q[0];
    assert name in n.children;
    var c := n.children[name];
    var j := KeyIndex(n, done, name);
    var down := done + [name];
    assert AllSegments(down);
    ChildPathCanon(done, name);
    if |q| == 1 {
      assert Canon(done + q) in Contribution(n, j, Canon(done)) by {
        assert done + q == down;
        assert Lookup(n, q) == Lookup(c, []);
      }
    } else {
      assert c.Dir? && Canon(done + q) in AllFilePaths(c, Canon(down)) by {
        assert Lookup(n, q) == Lookup(c, q[1..]);
        AllFilePathsComplete(c, down, q[1..]);
        ShiftSegment(done, q);
      }
      assert Canon(done + q) in Contribution(n, j, Canon(done));
    }
    FilesFromHas(n, 0, j, Canon(done), Canon(done + q));
  }

  /** In a well-formed directory every key has a place in the enumeration order. */
  lemma KeyIndex(n: Node, done: seq<string>, name: string) returns (j: nat)
    requires n.Dir? && WellFormed(n, done) && name in n.children
    ensures j < |n.order| && n.order[j] == name
  {
    assert name in n.order;
    j :| j < |n.order| && n.order[j] == name;
  }

  /** `getAllFilePaths()` on a valid tree lists exactly the canonical paths of its files. */
  lemma AllFilePathsSpec(root: Node, x: string)
    requires ValidRoot(root)
    ensures x in AllFilePaths(root, "/") <==> x == Canon(Segments(x)) && IsFileAt(root, Segments(x))
  {
    assert Canon([]) == "/";
    assert AllSegments([]);
    if x in AllFilePaths(root, "/") {
      AllFilePathsSound(root, [], x);
    }
    if x == Canon(Segments(x)) && IsFileAt(root, Segments(x)) {
      AllFilePathsComplete(root, [], Segments(x));
      assert [] + Segments(x) == Segments(x);
    }
  }
}
