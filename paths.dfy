/**
  Path strings: the fixed paths the engine uses, the root-volume remaps and the
  two URL path operations it relies on (appending a component, taking the last one).
 */
module Paths {

  const Root: string := "/"

  /** The writable data partition that stands in for the root volume. */
  const DataVolume: string := "/System/Volumes/Data"

  /**
    The remap applied to a user's selection before it is bookmarked: the root
    volume becomes its data partition, every other path is kept.
   */
  function SelectablePath(path: string): (p: string)
    ensures p != Root
    ensures path != Root ==> p == path
    ensures path == Root ==> p == DataVolume
  {
    if path == Root then DataVolume else path
  }

  /** The inverse remap used when reporting a selection: the data partition is shown as the root volume. */
  function ReportedPath(path: string): (p: string)
    ensures p != DataVolume
    ensures path != DataVolume ==> p == path
    ensures path == DataVolume ==> p == Root
  {
    if path == DataVolume then Root else path
  }

  /**
    A selection that is remapped for saving and then reported reads back as
    itself, except the data partition, which reads back as the root volume.
   */
  lemma SelectionReadsBack(path: string)
    ensures ReportedPath(SelectablePath(path)) == if path == DataVolume then Root else path
  {
  }

  /** `appendingPathComponent`: the base, at most one added separator, and the component. */
  function AppendPathComponent(base: string, component: string): (p: string)
    ensures |base| + |component| <= |p| <= |base| + |component| + 1
  {
    if base != [] && base[|base| - 1] == '/' then base + component else base + "/" + component
  }

  /** The appended path extends the base and ends in a separator followed by the component. */
  lemma AppendedPath(base: string, component: string)
    ensures var p := AppendPathComponent(base, component);
            && base <= p && |p| > |component|
            && (component != [] ==> base < p)
            && p[|p| - |component|..] == component
            && p[|p| - |component| - 1] == '/'
  {
  }

  /** The path without its trailing separators. */
  function TrimTrailingSlashes(path: string): (t: string)
    ensures t <= path
    ensures t == [] || t[|t| - 1] != '/'
    ensures forall i :: |t| <= i < |path| ==> path[i] == '/'
  {
    if path != [] && path[|path| - 1] == '/' then TrimTrailingSlashes(path[..|path| - 1]) else path
  }

  /** The characters after the last separator (all of `t` when it has none). */
  function AfterLastSlash(t: string): (c: string)
    ensures '/' !in c
    ensures |c| <= |t| && c == t[|t| - |c|..]
    ensures |c| < |t| ==> t[|t| - |c| - 1] == '/'
    ensures t != [] && t[|t| - 1] != '/' ==> c != []
  {
    if t == [] || t[|t| - 1] == '/' then [] else AfterLastSlash(t[..|t| - 1]) + [t[|t| - 1]]
  }

  /**
    `lastPathComponent`, ignoring trailing separators. For a path with a
    non-separator character the result is a non-empty run of non-separators
    that ends the path (trailing separators aside) and starts at its beginning
    or right after a separator; a path made only of separators yields "/".
   */
  function LastPathComponent(path: string): (c: string)
    ensures path == [] ==> c == []
    ensures path != [] && TrimTrailingSlashes(path) == [] ==> c == Root
    ensures var t := TrimTrailingSlashes(path);
            t != [] ==>
              && c != [] && '/' !in c && |c| <= |t|
              && t[|t| - |c|..] == c
              && (|c| == |t| || t[|t| - |c| - 1] == '/')
  {
    var t := TrimTrailingSlashes(path);
    if t == [] then (if path == [] then [] else Root) else AfterLastSlash(t)
  }

  lemma {:induction false} AfterLastSlashOfSuffix(prefix: string, c: string)
    requires prefix == [] || prefix[|prefix| - 1] == '/'
    requires '/' !in c
    ensures AfterLastSlash(prefix + c) == c
  {
    if c != [] {
      var init := c[..|c| - 1];
      assert (prefix + c)[..|prefix + c| - 1] == prefix + init;
      assert c[|c| - 1] in c;
      AfterLastSlashOfSuffix(prefix, init);
      assert init + [c[|c| - 1]] == c;
    } else {
      assert prefix + c == prefix;
    }
  }

  /** Appending a component and taking the last component gives the component back. */
  lemma LastComponentOfAppended(base: string, component: string)
    requires component != [] && '/' !in component
    ensures LastPathComponent(AppendPathComponent(base, component)) == component
  {
    var p := AppendPathComponent(base, component);
    AppendedPath(base, component);
    var prefix := p[..|p| - |component|];
    assert p == prefix + component;
    assert component[|component| - 1] in component;
    assert TrimTrailingSlashes(p) == p;
    AfterLastSlashOfSuffix(prefix, component);
  }
}
