/**
 * The POSIX `os.path` operations the pipeline uses on file names: `join`,
 * `basename` and the root part of `splitext`.
 */
module Paths {
  import opened Wrappers


  /** `os.path.join(a, b)` for two components. */
  function JoinPath(a: string, b: string): string {
    if b != [] && b[0] == '/' then b
    else if a == [] || a[|a| - 1] == '/' then a + b
    else a + "/" + b
  }

  /** `os.path.basename(p)`: everything after the last '/'. */
  function BaseName(p: string): string {
    if p == [] || p[|p| - 1] == '/' then []
    else BaseName(p[..|p| - 1]) + [p[|p| - 1]]
  }

  /** Index of the last '.', if any. */
  function LastDot(p: string): (r: Option<nat>)
    ensures r.Some? ==> r.value < |p| && p[r.value] == '.'
  {
    if p == [] then None
    else if p[|p| - 1] == '.' then Some(|p| - 1)
    else LastDot(p[..|p| - 1])
  }

  /**
   * `os.path.splitext(name)[0]` for a name without '/': the extension starts at
   * the last '.', unless only dots come before it (a leading-dot name such as
   * `.min` has no extension).
   */
  function SplitExtRoot(name: string): string {
    match LastDot(name)
    case None => name
    case Some(d) => if exists j :: 0 <= j < d && name[j] != '.' then name[..d] else name
  }

  /** Joining a name to a directory and taking the base name gives the name back. */
  lemma BaseNameOfJoin(root: string, name: string)
    requires name != [] && '/' !in name
    ensures BaseName(JoinPath(root, name)) == name
  {
    if root == [] || root[|root| - 1] == '/' {
      BaseNameAfterSlash(root, name);
    } else {
      BaseNameAfterSlash(root + "/", name);
      assert root + "/" + name == (root + "/") + name;
    }
  }

  lemma {:induction false} BaseNameAfterSlash(prefix: string, name: string)
    requires prefix == [] || prefix[|prefix| - 1] == '/'
    requires '/' !in name
    ensures BaseName(prefix + name) == name
    decreases |name|
  {
    if name == [] {
      assert prefix + name == prefix;
    } else {
      var init := name[..|name| - 1];
      assert (prefix + name)[..|prefix + name| - 1] == prefix + init;
      assert name[|name| - 1] in name;
      BaseNameAfterSlash(prefix, init);
      assert init + [name[|name| - 1]] == name;
    }
  }

  /** The last '.' is not inside an extension that holds none. */
  lemma {:induction false} LastDotBefore(p: string, ext: string)
    requires '.' !in ext
    ensures LastDot(p + ext) == LastDot(p)
    decreases |ext|
  {
    if ext != [] {
      var init := ext[..|ext| - 1];
      assert ext[|ext| - 1] in ext;
      assert (p + ext)[..|p + ext| - 1] == p + init;
      LastDotBefore(p, init);
    } else {
      assert p + ext == p;
    }
  }

  /** The root of `stem.ext` is `stem`, as long as the stem is not all dots and the extension holds no dot. */
  lemma StemOfExtension(stem: string, j: nat, ext: string)
    requires j < |stem| && stem[j] != '.'
    requires '.' !in ext
    ensures SplitExtRoot(stem + "." + ext) == stem
  {
    var p := stem + ".";
    LastDotBefore(p, ext);
    assert LastDot(p) == Some(|stem|);
    assert (p + ext)[j] == stem[j];
    assert (p + ext)[..|stem|] == stem;
  }
}
