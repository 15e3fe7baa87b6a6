/** The slash-separated path operations of Go's `path` package that the
    cached-binary path uses: path.Split, and path.Join restricted to elements
    that path.Clean leaves as they are. */
module Paths {

  /** A single path element that path.Clean keeps verbatim. */
  predicate IsPlainName(x: string) {
    x != [] && '/' !in x && x != "." && x != ".."
  }

  /** path.Split: everything up to and including the last slash, and the rest. */
  function Split(p: string): (r: (string, string))
    ensures r.0 + r.1 == p
    ensures '/' !in r.1
    ensures r.0 == [] || r.0[|r.0| - 1] == '/'
    decreases |p|
  {
    if p == [] then ([], [])
    else if p[|p| - 1] == '/' then (p, [])
    else
      var (dir, file) := Split(p[..|p| - 1]);
      (dir, file + [p[|p| - 1]])
  }

  /** The last element of a path. */
  function Base(p: string): string {
    Split(p).1
  }

  /** The path without its last element and the slash before it; a lone
      leading slash is kept, so the parent of "/x" is "/". */
  function Parent(p: string): string {
    var dir := Split(p).0;
    if |dir| > 1 then dir[..|dir| - 1] else dir
  }

  /** One or more plain elements separated by single slashes. */
  predicate IsPlainNames(p: string)
    decreases |p|
  {
    var (dir, file) := Split(p);
    IsPlainName(file) && (dir == [] || IsPlainNames(dir[..|dir| - 1]))
  }

  /** A path that path.Clean maps to itself, other than "." and paths with
      ".." elements: the empty path (which path.Join skips), the root, or
      plain elements, optionally rooted. */
  predicate IsClean(p: string) {
    p == [] || p == "/" || (if p[0] == '/' then IsPlainNames(p[1..]) else IsPlainNames(p))
  }

  /** path.Join(dir, a, b) for a clean `dir` and plain `a` and `b`: the
      elements joined by single slashes, an empty `dir` skipped. */
  function Join(dir: string, a: string, b: string): string
    requires IsClean(dir) && IsPlainName(a) && IsPlainName(b)
  {
    (if dir == [] then [] else if dir == "/" then "/" else dir + "/") + a + "/" + b
  }

  /** Splitting after a slash that is followed by a slash-free element. */
  lemma {:induction false} SplitAppend(x: string, y: string)
    requires '/' !in y
    ensures Split(x + "/" + y) == (x + "/", y)
    decreases |y|
  {
    var p := x + "/" + y;
    if y != [] {
      var y' := y[..|y| - 1];
      assert p[..|p| - 1] == x + "/" + y';
      SplitAppend(x, y');
      assert y' + [y[|y| - 1]] == y;
    } else {
      assert p == x + "/";
    }
  }

  /** The last two elements of a join are `a` and `b`, in that order, under `dir`. */
  lemma JoinComponents(dir: string, a: string, b: string)
    requires IsClean(dir) && IsPlainName(a) && IsPlainName(b)
    ensures Base(Join(dir, a, b)) == b
    ensures Base(Parent(Join(dir, a, b))) == a
    ensures Parent(Parent(Join(dir, a, b))) == dir
  {
    var prefix := if dir == [] then [] else if dir == "/" then "/" else dir + "/";
    var j := Join(dir, a, b);
    assert j == (prefix + a) + "/" + b;
    SplitAppend(prefix + a, b);
    assert Parent(j) == prefix + a;
    if dir == [] {
      assert Split(a) == ([], a) by {
        SplitAppend([], a);
        SplitSlashFree(a);
      }
    } else if dir == "/" {
      SplitAppend([], a);
      assert prefix + a == [] + "/" + a;
    } else {
      SplitAppend(dir, a);
      assert prefix + a == dir + "/" + a;
    }
  }

  /** A slash-free path is all file. */
  lemma {:induction false} SplitSlashFree(p: string)
    requires '/' !in p
    ensures Split(p) == ([], p)
    decreases |p|
  {
    if p != [] {
      SplitSlashFree(p[..|p| - 1]);
      assert p[..|p| - 1] + [p[|p| - 1]] == p;
    }
  }

  /** Appending a plain element to plain elements keeps them plain. */
  lemma AppendPlain(x: string, y: string)
    requires IsPlainNames(x) && IsPlainName(y)
    ensures IsPlainNames(x + "/" + y)
  {
    SplitAppend(x, y);
    assert (x + "/")[..|x + "/"| - 1] == x;
  }

  /** A plain element on its own is plain elements. */
  lemma SinglePlain(x: string)
    requires IsPlainName(x)
    ensures IsPlainNames(x)
  {
    SplitSlashFree(x);
  }

  /** path.Join returns a clean path; so does the model. */
  lemma JoinIsClean(dir: string, a: string, b: string)
    requires IsClean(dir) && IsPlainName(a) && IsPlainName(b)
    ensures IsClean(Join(dir, a, b))
  {
    var j := Join(dir, a, b);
    SinglePlain(a);
    if dir == [] {
      AppendPlain(a, b);
      assert j == a + "/" + b && j[0] == a[0];
    } else if dir == "/" {
      AppendPlain(a, b);
      assert j[1..] == a + "/" + b;
    } else if dir[0] == '/' {
      AppendPlain(dir[1..], a);
      AppendPlain(dir[1..] + "/" + a, b);
      assert j[1..] == (dir[1..] + "/" + a) + "/" + b;
    } else {
      AppendPlain(dir, a);
      AppendPlain(dir + "/" + a, b);
      assert j == (dir + "/" + a) + "/" + b;
    }
  }
}
