/**
 * Slash-separated paths, split and built the way the file system does it:
 * `path.split('/').filter(p => p)` to take a path apart, `'/' + parts.join('/')`
 * to put one together.
 */
module Paths {

  /** A piece that survives `filter(p => p)` after `split('/')`: non-empty, slash-free. */
  predicate IsSegment(s: string) {
    s != [] && '/' !in s
  }

  predicate AllSegments(segs: seq<string>) {
    forall i :: 0 <= i < |segs| ==> IsSegment(segs[i])
  }

  /** `s.split('/')`: the pieces between slashes, empty ones included. */
  function Split(s: string): (pieces: seq<string>)
    ensures |pieces| >= 1
    ensures forall i :: 0 <= i < |pieces| ==> '/' !in pieces[i]
  {
    if s == [] then [""]
    else if s[0] == '/' then [""] + Split(s[1..])
    else
      var rest := Split(s[1..]);
      [[s[0]] + rest[0]] + rest[1..]
  }

  /** `pieces.join(sep)`. */
  function Join(pieces: seq<string>, sep: string): string {
    if pieces == [] then ""
    else if |pieces| == 1 then pieces[0]
    else pieces[0] + sep + Join(pieces[1..], sep)
  }

  /** `filter(p => p)` on strings: drops the empty ones. */
  function NonEmpty(pieces: seq<string>): (kept: seq<string>)
    ensures forall i :: 0 <= i < |kept| ==> kept[i] != "" && kept[i] in pieces
    ensures |kept| <= |pieces|
  {
    if pieces == [] then []
    else (if pieces[0] == "" then [] else [pieces[0]]) + NonEmpty(pieces[1..])
  }

  /** The segments of a path: `path.split('/').filter(p => p)`. */
  function Segments(path: string): (segs: seq<string>)
    ensures AllSegments(segs)
  {
    NonEmpty(Split(path))
  }

  /** The canonical absolute path of a segment list: `'/' + segs.join('/')`. */
  function Canon(segs: seq<string>): string {
    "/" + Join(segs, "/")
  }

  /** The path of an entry `name` listed in directory `dir` (app.js:332, app.js:578). */
  function ChildPath(dir: string, name: string): string {
    if dir == "/" then "/" + name else dir + "/" + name
  }

  /** `getParentPath`: `'/'` for the root and for single-segment paths, else all segments but the last. */
  function GetParentPath(filePath: string): string {
    if filePath == "/" then "/"
    else
      var parts := Segments(filePath);
      if |parts| <= 1 then "/" else Canon(parts[..|parts| - 1])
  }

  function DropLast<T>(s: seq<T>): seq<T> {
    if s == [] then [] else s[..|s| - 1]
  }

  // ---------------------------------------------------------------------
  // Splitting and joining

  /** Joining the pieces of a split with the separator gives back the string. */
  lemma {:induction false} JoinSplit(s: string)
    ensures Join(Split(s), "/") == s
  {
    if s == [] {
    } else if s[0] == '/' {
      JoinSplit(s[1..]);
    } else {
      JoinSplit(s[1..]);
      var rest := Split(s[1..]);
      if |rest| > 1 {
        assert Join(Split(s), "/") == ([s[0]] + rest[0]) + "/" + Join(rest[1..], "/");
      }
    }
  }

  /** A slash in the middle splits into the pieces on either side. */
  lemma {:induction false} SplitAround(x: string, y: string)
    ensures Split(x + "/" + y) == Split(x) + Split(y)
  {
    if x == [] {
      assert x + "/" + y == "/" + y;
      assert ("/" + y)[1..] == y;
    } else if x[0] == '/' {
      assert (x + "/" + y)[1..] == x[1..] + "/" + y;
      SplitAround(x[1..], y);
    } else {
      assert (x + "/" + y)[1..] == x[1..] + "/" + y;
      SplitAround(x[1..], y);
    }
  }

  lemma {:induction false} SplitNoSlash(a: string)
    requires '/' !in a
    ensures Split(a) == [a]
  {
    if a != [] {
      SplitNoSlash(a[1..]);
      assert [a[0]] + a[1..] == a;
    }
  }

  /** Splitting a joined list of slash-free pieces gives the pieces back. */
  lemma {:induction false} SplitJoin(pieces: seq<string>)
    requires |pieces| >= 1
    requires forall i :: 0 <= i < |pieces| ==> '/' !in pieces[i]
    ensures Split(Join(pieces, "/")) == pieces
  {
    if |pieces| == 1 {
      SplitNoSlash(pieces[0]);
    } else {
      SplitJoin(pieces[1..]);
      SplitAround(pieces[0], Join(pieces[1..], "/"));
      SplitNoSlash(pieces[0]);
      assert pieces == [pieces[0]] + pieces[1..];
    }
  }

  lemma {:induction false} NonEmptyAppend(a: seq<string>, b: seq<string>)
    ensures NonEmpty(a + b) == NonEmpty(a) + NonEmpty(b)
  {
    if a == [] {
      assert a + b == b;
    } else {
      assert (a + b)[1..] == a[1..] + b;
      NonEmptyAppend(a[1..], b);
    }
  }

  lemma {:induction false} NonEmptyKeepsSegments(segs: seq<string>)
    requires AllSegments(segs)
    ensures NonEmpty(segs) == segs
  {
    if segs != [] {
      NonEmptyKeepsSegments(segs[1..]);
      assert segs == [segs[0]] + segs[1..];
    }
  }

  lemma {:induction false} JoinSnoc(xs: seq<string>, y: string, sep: string)
    requires xs != []
    ensures Join(xs + [y], sep) == Join(xs, sep) + sep + y
  {
    if |xs| == 1 {
      assert xs + [y] == [xs[0], y];
    } else {
      assert (xs + [y])[1..] == xs[1..] + [y];
      JoinSnoc(xs[1..], y, sep);
    }
  }

  // ---------------------------------------------------------------------
  // Canonical paths

  /** The root path has no segments. */
  lemma RootHasNoSegments()
    ensures Segments("/") == []
  {
    assert Split("/") == [""] + Split("");
    assert NonEmpty(["", ""]) == [] + NonEmpty([""]);
  }

  /** The canonical path of a segment list splits back into that list. */
  lemma CanonSegments(segs: seq<string>)
    requires AllSegments(segs)
    ensures Segments(Canon(segs)) == segs
  {
    assert Canon(segs) == "" + "/" + Join(segs, "/");
    SplitAround("", Join(segs, "/"));
    if segs == [] {
      assert Split(Canon(segs)) == ["", ""];
    } else {
      SplitJoin(segs);
      NonEmptyAppend([""], segs);
      NonEmptyKeepsSegments(segs);
    }
  }

  /** The path that `createFile` builds step by step (`constructedPath + '/' + name`) is the canonical one. */
  lemma CanonSnoc(segs: seq<string>, name: string)
    ensures Canon(segs + [name]) == (if segs == [] then "/" + name else Canon(segs) + "/" + name)
  {
    if segs == [] {
      assert segs + [name] == [name];
    } else {
      JoinSnoc(segs, name, "/");
    }
  }
  /** Listing a directory of canonical path `Canon(segs)` yields the canonical paths one level down. */
  lemma ChildPathCanon(segs: seq<string>, name: string)
    requires AllSegments(segs)
    ensures ChildPath(Canon(segs), name) == Canon(segs + [name])
  {
    CanonSnoc(segs, name);
    if segs != [] {
      CanonSegments(segs);
      RootHasNoSegments();
    }
  }


  /** Appending a segment to a directory path appends it to the segments. */
  lemma ChildPathSegments(dir: string, name: string)
    requires IsSegment(name)
    ensures Segments(ChildPath(dir, name)) == Segments(dir) + [name]
  {
    SplitNoSlash(name);
    if dir == "/" {
      assert ChildPath(dir, name) == "" + "/" + name;
      SplitAround("", name);
      RootHasNoSegments();
      NonEmptyAppend([""], [name]);
    } else {
      SplitAround(dir, name);
      NonEmptyAppend(Split(dir), [name]);
    }
  }

  /** `getParentPath` drops the last segment: its result splits into all segments but the last. */
  lemma ParentPathSegments(p: string)
    ensures Segments(GetParentPath(p)) == DropLast(Segments(p))
    ensures GetParentPath(p) == Canon(DropLast(Segments(p)))
  {
    RootHasNoSegments();
    if p == "/" {
    } else {
      var parts := Segments(p);
      if |parts| > 1 {
        CanonSegments(parts[..|parts| - 1]);
      }
    }
  }

  /** The parent of an entry listed in a directory is that directory, in canonical form. */
  lemma ParentOfChild(dir: string, name: string)
    requires IsSegment(name)
    ensures GetParentPath(ChildPath(dir, name)) == (if Segments(dir) == [] then "/" else Canon(Segments(dir)))
  {
    ChildPathSegments(dir, name);
    RootHasNoSegments();
    assert Segments(ChildPath(dir, name)) != Segments("/");
    var parts := Segments(ChildPath(dir, name));
    assert parts[..|parts| - 1] == Segments(dir);
  }
}
