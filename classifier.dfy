/**
 * Classification of an import's two ends, as the walker's private methods
 * `sourceRoot`, `targetRoot` and `isRelative` do it: each end is the first of
 * the (longest-first) roots that matches, or "" when none does.
 */
module Classifier {
  import opened Wrappers
  import opened JsStrings
  import opened PosixPath
  import opened RootLookup

  /** `isRelative`: the specifier starts with a dot. */
  predicate IsRelative(s: string) {
    StartsWith(s, ".")
  }

  /** `@<npmScope>/`, the prefix of the workspace's own package names. */
  function ScopePrefix(npmScope: string): string {
    "@" + npmScope + "/"
  }

  /** A raw workspace path: it starts with one of the two base directories. */
  predicate IsRaw(imp: string) {
    StartsWith(imp, "apps/") || StartsWith(imp, "libs/")
  }

  /** `p.substring(projectPath.length + 1)`: `p` relative to the workspace directory. */
  function ProjectRelative(projectPath: string, p: string): (r: string)
    ensures StartsWith(p, projectPath + "/") ==> p == projectPath + "/" + r
  {
    SubstringFrom(p, |projectPath| + 1)
  }

  /** Root test of `sourceRoot` and of relative targets: the root prefixes the path. */
  function PrefixMatch(path: string): string -> bool {
    root => StartsWith(path, root)
  }

  /** `r.substring(r.indexOf('/'))`: the root without its base directory, keeping the separator. */
  function ScopeStripped(root: string): string {
    SubstringFrom(root, IndexOf(root, '/'))
  }

  /** Root test of scoped targets: the stripped root prefixes the specifier without its scope. */
  predicate ScopedHit(impNoScope: string, root: string) {
    StartsWith(impNoScope, ScopeStripped(root))
  }

  /** `ScopedHit` as the predicate handed to `filter`. */
  function ScopedMatch(impNoScope: string): string -> bool {
    root => ScopedHit(impNoScope, root)
  }

  /** Root test of raw workspace paths: the path is the root or lies below it. */
  function RawMatch(imp: string): string -> bool {
    root => StartsWith(imp, root + "/") || imp == root
  }

  /**
   * `sourceRoot()`: the root that the importing file's workspace-relative
   * path starts with. On longest-first roots it is the longest such root, and
   * it is "" exactly when no non-empty root prefixes the path.
   */
  function SourceRoot(roots: seq<string>, projectPath: string, fileName: string): (r: string)
    ensures r == "" || (r in roots && StartsWith(ProjectRelative(projectPath, fileName), r))
    ensures LongestFirst(roots) ==>
      forall x :: x in roots && StartsWith(ProjectRelative(projectPath, fileName), x) ==> |x| <= |r|
    ensures LongestFirst(roots) ==>
      (r == "" <==> forall x :: x in roots && x != "" ==> !StartsWith(ProjectRelative(projectPath, fileName), x))
  {
    var p := PrefixMatch(ProjectRelative(projectPath, fileName));
    LookupIsLongestMatch(roots, p);
    OrEmpty(FirstOf(roots, p))
  }

  /**
   * The workspace-relative path a relative specifier points to:
   * `path.resolve(path.dirname(fileName), imp)` without the workspace
   * directory, with `split(path.sep).join('/')` applied (`path.sep` is '/').
   */
  function RelativeTarget(projectPath: string, cwd: string, fileName: string, imp: string): (r: string)
    ensures r == ProjectRelative(projectPath, Resolve(cwd, Dirname(fileName), imp))
  {
    var resolved := ProjectRelative(projectPath, Resolve(cwd, Dirname(fileName), imp));
    JoinSplit(resolved, '/');
    Join(Split(resolved, '/'), '/')
  }

  /**
   * `targetRoot(imp)`: which root the specifier points into, by the shape of
   * the specifier; "" for any other specifier (a package name).
   */
  function TargetRoot(roots: seq<string>, projectPath: string, npmScope: string, cwd: string,
                      fileName: string, imp: string): (r: string)
    ensures r == "" || r in roots
    ensures !IsRelative(imp) && !StartsWith(imp, ScopePrefix(npmScope)) && !IsRaw(imp) ==> r == ""
  {
    if IsRelative(imp) then
      var p := PrefixMatch(RelativeTarget(projectPath, cwd, fileName, imp));
      LookupIsLongestMatch(roots, p);
      OrEmpty(FirstOf(roots, p))
    else if StartsWith(imp, ScopePrefix(npmScope)) then
      var p := ScopedMatch(SubstringFrom(imp, |npmScope| + 1));
      LookupIsLongestMatch(roots, p);
      OrEmpty(FirstOf(roots, p))
    else if IsRaw(imp) then
      var p := RawMatch(imp);
      LookupIsLongestMatch(roots, p);
      OrEmpty(FirstOf(roots, p))
    else
      ""
  }

  // ---------------------------------------------------------------- lemmas

  /** The three specifier shapes exclude each other: they begin with different characters. */
  lemma ShapesExclusive(imp: string, npmScope: string)
    ensures IsRelative(imp) ==> !StartsWith(imp, ScopePrefix(npmScope)) && !IsRaw(imp)
    ensures IsRaw(imp) ==> !StartsWith(imp, ScopePrefix(npmScope))
  {
    if IsRelative(imp) { StartsWithFirst(imp, "."); }
    if StartsWith(imp, "apps/") { StartsWithFirst(imp, "apps/"); }
    if StartsWith(imp, "libs/") { StartsWithFirst(imp, "libs/"); }
    if StartsWith(imp, ScopePrefix(npmScope)) { StartsWithFirst(imp, ScopePrefix(npmScope)); }
  }

  /**
   * A relative specifier points into the longest root that prefixes the
   * resolved path, and into none ("") when no non-empty root does.
   */
  lemma RelativeTargetIsLongestRoot(roots: seq<string>, projectPath: string, npmScope: string, cwd: string,
                                    fileName: string, imp: string)
    requires LongestFirst(roots) && IsRelative(imp)
    ensures var t := TargetRoot(roots, projectPath, npmScope, cwd, fileName, imp);
      var path := ProjectRelative(projectPath, Resolve(cwd, Dirname(fileName), imp));
      && (t == "" || StartsWith(path, t))
      && (forall x :: x in roots && StartsWith(path, x) ==> |x| <= |t|)
      && (t == "" <==> forall x :: x in roots && x != "" ==> !StartsWith(path, x))
  {
    LookupIsLongestMatch(roots, PrefixMatch(RelativeTarget(projectPath, cwd, fileName, imp)));
  }

  /**
   * A raw `apps/` or `libs/` path points into the longest root that it equals
   * or lies below (at a separator), and into none when there is no such root.
   */
  lemma RawTargetIsLongestRoot(roots: seq<string>, projectPath: string, npmScope: string, cwd: string,
                               fileName: string, imp: string)
    requires LongestFirst(roots) && IsRaw(imp)
    ensures var t := TargetRoot(roots, projectPath, npmScope, cwd, fileName, imp);
      && (t == "" || imp == t || StartsWith(imp, t + "/"))
      && (forall x :: x in roots && (imp == x || StartsWith(imp, x + "/")) ==> |x| <= |t|)
  {
    ShapesExclusive(imp, npmScope);
    LookupIsLongestMatch(roots, RawMatch(imp));
  }

  /** A scoped specifier takes the scoped branch of `targetRoot`. */
  lemma ScopedBranchTaken(roots: seq<string>, projectPath: string, npmScope: string, cwd: string,
                          fileName: string, imp: string)
    requires StartsWith(imp, ScopePrefix(npmScope))
    ensures TargetRoot(roots, projectPath, npmScope, cwd, fileName, imp)
         == OrEmpty(FirstOf(roots, ScopedMatch(SubstringFrom(imp, |npmScope| + 1))))
  {
    ShapesExclusive(imp, npmScope);
  }

  /**
   * A scoped specifier `@scope/rest` points into the longest root whose
   * stripped form prefixes `/rest`, and into none ("") exactly when no
   * non-empty root's does.
   */
  lemma ScopedTargetIsLongestRoot(roots: seq<string>, projectPath: string, npmScope: string, cwd: string,
                                  fileName: string, imp: string)
    requires LongestFirst(roots) && StartsWith(imp, ScopePrefix(npmScope))
    ensures var t := TargetRoot(roots, projectPath, npmScope, cwd, fileName, imp);
      var rest := SubstringFrom(imp, |npmScope| + 1);
      && (t == "" || ScopedHit(rest, t))
      && (forall x :: x in roots && ScopedHit(rest, x) ==> |x| <= |t|)
      && (t == "" <==> forall x :: x in roots && x != "" ==> !ScopedHit(rest, x))
  {
    var rest := SubstringFrom(imp, |npmScope| + 1);
    var p := ScopedMatch(rest);
    ScopedBranchTaken(roots, projectPath, npmScope, cwd, fileName, imp);
    LookupIsLongestMatch(roots, p);
  }

  /** `r.substring(r.indexOf('/'))` of `base/rest` is `/rest`. */
  lemma ScopeStrippedRoot(base: string, rest: string)
    requires '/' !in base
    ensures ScopeStripped(base + "/" + rest) == "/" + rest
  {
    var r := base + "/" + rest;
    var k := IndexOf(r, '/');
    assert r[|base|] == '/';
    assert r[..|base|] == base;
    assert r[|base|..] == "/" + rest;
  }

  lemma PrefixMatchOnePerLength(path: string)
    ensures OnePerLength(PrefixMatch(path))
  {
    forall x, y | PrefixMatch(path)(x) && PrefixMatch(path)(y) && |x| == |y| ensures x == y {
      PrefixesOfSameLength(path, x, y);
    }
  }

  lemma RawMatchOnePerLength(imp: string)
    ensures OnePerLength(RawMatch(imp))
  {
    forall x, y | RawMatch(imp)(x) && RawMatch(imp)(y) && |x| == |y| ensures x == y {
      if StartsWith(imp, x + "/") && StartsWith(imp, y + "/") {
        PrefixesOfSameLength(imp, x + "/", y + "/");
        assert x == (x + "/")[..|x|] && y == (y + "/")[..|y|];
      }
    }
  }

  /**
   * The importing file's root does not depend on the order in which the roots
   * were listed: the walker sorts them longest first, and two different roots
   * of one length cannot both prefix the same path.
   */
  lemma SourceRootIgnoresOrder(a: seq<string>, b: seq<string>, projectPath: string, fileName: string)
    requires multiset(a) == multiset(b)
    ensures SourceRoot(SortLongestFirst(a), projectPath, fileName) == SourceRoot(SortLongestFirst(b), projectPath, fileName)
  {
    var p := PrefixMatch(ProjectRelative(projectPath, fileName));
    PrefixMatchOnePerLength(ProjectRelative(projectPath, fileName));
    SortedLookupIgnoresOrder(a, b, p);
  }

  /**
   * Neither does the target root of a relative specifier, a raw workspace path
   * or a package name. (Scoped specifiers are different: `libs/x` and `apps/x`
   * both match `@scope/x`, and then the input order decides; see
   * `ScopedTargetIgnoresOrder`.)
   */
  lemma TargetRootIgnoresOrder(a: seq<string>, b: seq<string>, projectPath: string, npmScope: string,
                               cwd: string, fileName: string, imp: string)
    requires multiset(a) == multiset(b)
    requires !StartsWith(imp, ScopePrefix(npmScope))
    ensures TargetRoot(SortLongestFirst(a), projectPath, npmScope, cwd, fileName, imp)
         == TargetRoot(SortLongestFirst(b), projectPath, npmScope, cwd, fileName, imp)
  {
    if IsRelative(imp) {
      var path := RelativeTarget(projectPath, cwd, fileName, imp);
      PrefixMatchOnePerLength(path);
      SortedLookupIgnoresOrder(a, b, PrefixMatch(path));
    } else if IsRaw(imp) {
      RawMatchOnePerLength(imp);
      SortedLookupIgnoresOrder(a, b, RawMatch(imp));
    }
  }

  /**
   * The target root of a scoped specifier does not depend on the order the
   * roots were given in either, as long as no two roots of one length match
   * it; between two that do, the sort keeps their input order.
   */
  lemma ScopedTargetIgnoresOrder(a: seq<string>, b: seq<string>, projectPath: string, npmScope: string,
                                 cwd: string, fileName: string, imp: string)
    requires multiset(a) == multiset(b)
    requires StartsWith(imp, ScopePrefix(npmScope))
    requires var rest := SubstringFrom(imp, |npmScope| + 1);
      forall x, y :: x in a && y in a && |x| == |y| && ScopedHit(rest, x) && ScopedHit(rest, y) ==> x == y
    ensures TargetRoot(SortLongestFirst(a), projectPath, npmScope, cwd, fileName, imp)
         == TargetRoot(SortLongestFirst(b), projectPath, npmScope, cwd, fileName, imp)
  {
    ScopedBranchTaken(SortLongestFirst(a), projectPath, npmScope, cwd, fileName, imp);
    ScopedBranchTaken(SortLongestFirst(b), projectPath, npmScope, cwd, fileName, imp);
    SortedLookupIgnoresOrder(a, b, ScopedMatch(SubstringFrom(imp, |npmScope| + 1)));
  }
}
