/**
 * The rule's decision for one import: the option parsing at the top of
 * `visitImportDeclaration` and its first-match-wins chain of checks, which
 * accepts the import or names one of five fixed failure messages.
 */
module BoundaryRule {
  import opened Wrappers
  import opened JsStrings
  import opened RootLookup
  import opened Classifier

  datatype FailureKind = RelativeScopeImport | AppImport | LazyLoadedImport | DeepImport | MissingScope

  /** The message recorded for each kind of failure. */
  function Message(kind: FailureKind, npmScope: string): string {
    match kind
    case RelativeScopeImport => "relative imports using @" + npmScope + "/ are forbidden"
    case AppImport => "imports of apps are forbidden"
    case LazyLoadedImport => "imports of lazy-loaded libraries are forbidden"
    case DeepImport => "deep imports into libraries are forbidden"
    case MissingScope => "library imports must start with @" + npmScope + "/"
  }

  datatype Verdict = Accept | Reject(kind: FailureKind)

  /** A rule option as configured: an array (of strings), or anything else. */
  datatype ListOption = NotArray | Array(items: seq<string>)

  /**
   * The first rule argument: `undefined` or `null`, or any other value, whose
   * `allow` and `lazyLoad` properties are read (absent ones are `NotArray`).
   */
  datatype RuleArgument = Nullish | Value(allow: ListOption, lazyLoad: ListOption)

  datatype RuleOptions = RuleOptions(allow: seq<string>, lazyLoad: seq<string>)

  /** `Array.isArray(o) ? o.map(a => `${a}`) : []`. */
  function ListOrEmpty(o: ListOption): seq<string> {
    if o.Array? then o.items else []
  }

  /**
   * Reading `getOptions()[0].allow` and `.lazyLoad`. A missing or nullish first
   * argument makes the property access throw a TypeError (`None`); a property
   * that is not an array reads as the empty list.
   */
  function ParseOptions(args: seq<RuleArgument>): (r: Option<RuleOptions>)
    ensures r.None? <==> |args| == 0 || args[0].Nullish?
    ensures r.Some? ==> r.value.allow == ListOrEmpty(args[0].allow) && r.value.lazyLoad == ListOrEmpty(args[0].lazyLoad)
    ensures r.Some? && args[0].allow.NotArray? ==> r.value.allow == []
    ensures r.Some? && args[0].lazyLoad.NotArray? ==> r.value.lazyLoad == []
  {
    if |args| == 0 || args[0].Nullish? then None
    else Some(RuleOptions(ListOrEmpty(args[0].allow), ListOrEmpty(args[0].lazyLoad)))
  }

  /** Lazy-load test of line 103: the specifier is `@scope/l` or lies below it. */
  function LazyMatch(imp: string, npmScope: string): string -> bool {
    l => StartsWith(imp, ScopePrefix(npmScope) + l + "/") || imp == ScopePrefix(npmScope) + l
  }

  /** Deep-import test of line 110: the specifier lies below `@scope/l`. */
  function DeepMatch(imp: string, npmScope: string): string -> bool {
    l => StartsWith(imp, ScopePrefix(npmScope) + l + "/")
  }

  /** Library test of line 116: the specifier is exactly `@scope/l`. */
  function ExactMatch(imp: string, npmScope: string): string -> bool {
    l => imp == ScopePrefix(npmScope) + l
  }

  /** The specifier names one of the libraries by its scoped package name. */
  predicate NamesLibrary(imp: string, npmScope: string, libNames: seq<string>) {
    exists i :: 0 <= i < |libNames| && imp == ScopePrefix(npmScope) + libNames[i]
  }

  /**
   * The decision chain, in source order; "" stands for a falsy root (no root
   * matched). The lazy-load and deep-import tests keep the truthiness test of
   * the source on the first matching name.
   */
  function Decide(imp: string, opts: RuleOptions, npmScope: string, libNames: seq<string>,
                  sourceRoot: string, targetRoot: string): Verdict
  {
    if imp in opts.allow then Accept
    else if StartsWith(imp, ScopePrefix(npmScope) + ".") then Reject(RelativeScopeImport)
    else if sourceRoot == "" || targetRoot == "" || (IsRelative(imp) && sourceRoot == targetRoot) then Accept
    else if IsRaw(imp) && sourceRoot == targetRoot then Accept
    else if StartsWith(targetRoot, "apps/") then Reject(AppImport)
    else if OrEmpty(FirstOf(opts.lazyLoad, LazyMatch(imp, npmScope))) != "" then Reject(LazyLoadedImport)
    else if OrEmpty(FirstOf(libNames, DeepMatch(imp, npmScope))) != "" then Reject(DeepImport)
    else if !(|Filter(libNames, ExactMatch(imp, npmScope))| > 0) then Reject(MissingScope)
    else Accept
  }

  /** The import gets past the allow-list, the `@scope/.` test and both same-root tests (line 97 is reached). */
  predicate ReachesAppCheck(imp: string, opts: RuleOptions, npmScope: string, sourceRoot: string, targetRoot: string) {
    && imp !in opts.allow
    && !StartsWith(imp, ScopePrefix(npmScope) + ".")
    && sourceRoot != "" && targetRoot != ""
    && !(IsRelative(imp) && sourceRoot == targetRoot)
    && !(IsRaw(imp) && sourceRoot == targetRoot)
  }

  // ---------------------------------------------------------------- lemmas

  /** The five messages are pairwise different, so a message tells which check fired. */
  lemma MessagesDistinct(k1: FailureKind, k2: FailureKind, npmScope: string)
    requires k1 != k2
    ensures Message(k1, npmScope) != Message(k2, npmScope)
  {
    MessageLetters(npmScope);
    var m1, m2 := Message(k1, npmScope), Message(k2, npmScope);
    if (k1 == AppImport && k2 == LazyLoadedImport) || (k1 == LazyLoadedImport && k2 == AppImport) {
      assert m1[11] != m2[11];
    } else {
      assert m1[0] != m2[0];
    }
  }

  /** The letters that tell the messages apart. */
  lemma MessageLetters(npmScope: string)
    ensures Message(RelativeScopeImport, npmScope)[0] == 'r'
    ensures Message(MissingScope, npmScope)[0] == 'l'
    ensures Message(AppImport, npmScope)[0] == 'i' && Message(AppImport, npmScope)[11] == 'a'
    ensures Message(LazyLoadedImport, npmScope)[0] == 'i' && Message(LazyLoadedImport, npmScope)[11] == 'l'
    ensures Message(DeepImport, npmScope)[0] == 'd'
  {
    var relative := "relative imports using @";
    var scope := "library imports must start with @";
    assert (relative + npmScope + "/ are forbidden")[0] == relative[0];
    assert (scope + npmScope + "/")[0] == scope[0];
  }

  /** An allow-listed specifier is accepted before any other check, whatever the roots. */
  lemma AllowListedAccepted(imp: string, opts: RuleOptions, npmScope: string, libNames: seq<string>,
                            sourceRoot: string, targetRoot: string)
    requires imp in opts.allow
    ensures Decide(imp, opts, npmScope, libNames, sourceRoot, targetRoot) == Accept
  {
  }

  /** `@scope/.` is rejected unless allow-listed, even when neither end is classified. */
  lemma ScopedRelativeRejected(imp: string, opts: RuleOptions, npmScope: string, libNames: seq<string>,
                               sourceRoot: string, targetRoot: string)
    requires imp !in opts.allow && StartsWith(imp, ScopePrefix(npmScope) + ".")
    ensures Decide(imp, opts, npmScope, libNames, sourceRoot, targetRoot) == Reject(RelativeScopeImport)
  {
  }

  /** An import with an unclassified end is accepted unless it uses `@scope/.`. */
  lemma UnclassifiedAccepted(imp: string, opts: RuleOptions, npmScope: string, libNames: seq<string>,
                             sourceRoot: string, targetRoot: string)
    requires sourceRoot == "" || targetRoot == ""
    requires !StartsWith(imp, ScopePrefix(npmScope) + ".")
    ensures Decide(imp, opts, npmScope, libNames, sourceRoot, targetRoot) == Accept
  {
  }

  /** A relative or raw-path import whose two ends are the same root is always accepted. */
  lemma SameRootPathAccepted(imp: string, opts: RuleOptions, npmScope: string, libNames: seq<string>,
                             sourceRoot: string, targetRoot: string)
    requires IsRelative(imp) || IsRaw(imp)
    requires sourceRoot == targetRoot
    ensures Decide(imp, opts, npmScope, libNames, sourceRoot, targetRoot) == Accept
  {
    ShapesExclusive(imp, npmScope);
    if StartsWith(imp, ScopePrefix(npmScope) + ".") {
      StartsWithAppend(ScopePrefix(npmScope), ".");
      StartsWithTrans(imp, ScopePrefix(npmScope) + ".", ScopePrefix(npmScope));
    }
  }

  /** Once line 97 is reached, a target under `apps/` is rejected, even the importer's own app. */
  lemma AppTargetRejected(imp: string, opts: RuleOptions, npmScope: string, libNames: seq<string>,
                          sourceRoot: string, targetRoot: string)
    requires ReachesAppCheck(imp, opts, npmScope, sourceRoot, targetRoot)
    requires StartsWith(targetRoot, "apps/")
    ensures Decide(imp, opts, npmScope, libNames, sourceRoot, targetRoot) == Reject(AppImport)
  {
  }

  /**
   * Past the app check, naming a lazy-loaded library (exactly or below it)
   * is rejected as such, before the deep-import check can fire.
   */
  lemma LazyLoadedRejected(imp: string, opts: RuleOptions, npmScope: string, libNames: seq<string>,
                           sourceRoot: string, targetRoot: string, l: string)
    requires ReachesAppCheck(imp, opts, npmScope, sourceRoot, targetRoot)
    requires !StartsWith(targetRoot, "apps/")
    requires "" !in opts.lazyLoad
    requires l in opts.lazyLoad && (imp == ScopePrefix(npmScope) + l || StartsWith(imp, ScopePrefix(npmScope) + l + "/"))
    ensures Decide(imp, opts, npmScope, libNames, sourceRoot, targetRoot) == Reject(LazyLoadedImport)
  {
    var k :| 0 <= k < |opts.lazyLoad| && opts.lazyLoad[k] == l;
    assert LazyMatch(imp, npmScope)(opts.lazyLoad[k]);
  }

  /**
   * Past the lazy-load check (its lookup falsy, whether nothing matched or a
   * `''` did), an import below `@scope/l` for a library `l` is a deep import.
   */
  lemma DeepImportRejected(imp: string, opts: RuleOptions, npmScope: string, libNames: seq<string>,
                           sourceRoot: string, targetRoot: string, l: string)
    requires ReachesAppCheck(imp, opts, npmScope, sourceRoot, targetRoot)
    requires !StartsWith(targetRoot, "apps/")
    requires OrEmpty(FirstOf(opts.lazyLoad, LazyMatch(imp, npmScope))) == ""
    requires "" !in libNames
    requires l in libNames && StartsWith(imp, ScopePrefix(npmScope) + l + "/")
    ensures Decide(imp, opts, npmScope, libNames, sourceRoot, targetRoot) == Reject(DeepImport)
  {
    var k :| 0 <= k < |libNames| && libNames[k] == l;
    assert DeepMatch(imp, npmScope)(libNames[k]);
  }

  /**
   * The last check: past every other one (the lazy-load and deep-import
   * lookups falsy, whether nothing matched or a `''` did), exactly the scoped
   * name of a library is accepted and anything else must use the scope.
   */
  lemma LastCheckAcceptsOnlyLibraryNames(imp: string, opts: RuleOptions, npmScope: string, libNames: seq<string>,
                                         sourceRoot: string, targetRoot: string)
    requires ReachesAppCheck(imp, opts, npmScope, sourceRoot, targetRoot)
    requires !StartsWith(targetRoot, "apps/")
    requires OrEmpty(FirstOf(opts.lazyLoad, LazyMatch(imp, npmScope))) == ""
    requires OrEmpty(FirstOf(libNames, DeepMatch(imp, npmScope))) == ""
    ensures Decide(imp, opts, npmScope, libNames, sourceRoot, targetRoot)
         == if NamesLibrary(imp, npmScope, libNames) then Accept else Reject(MissingScope)
  {
    ExactFilterNamesLibrary(imp, npmScope, libNames);
  }

  /** Line 116's `filter(...).length > 0` holds exactly when the specifier names a library. */
  lemma ExactFilterNamesLibrary(imp: string, npmScope: string, libNames: seq<string>)
    ensures |Filter(libNames, ExactMatch(imp, npmScope))| > 0 <==> NamesLibrary(imp, npmScope, libNames)
  {
    var f := Filter(libNames, ExactMatch(imp, npmScope));
    if NamesLibrary(imp, npmScope, libNames) {
      var i :| 0 <= i < |libNames| && imp == ScopePrefix(npmScope) + libNames[i];
      assert libNames[i] in f;
    }
    if |f| > 0 {
      assert f[0] in libNames && ExactMatch(imp, npmScope)(f[0]);
      var i :| 0 <= i < |libNames| && libNames[i] == f[0];
    }
  }

  /**
   * A relative or raw-path import into another, non-app root is rejected with
   * the scope message: such a specifier can never equal a scoped name.
   */
  lemma CrossRootPathRejected(imp: string, opts: RuleOptions, npmScope: string, libNames: seq<string>,
                              sourceRoot: string, targetRoot: string)
    requires IsRelative(imp) || IsRaw(imp)
    requires imp !in opts.allow
    requires sourceRoot != "" && targetRoot != "" && sourceRoot != targetRoot
    requires !StartsWith(targetRoot, "apps/")
    ensures Decide(imp, opts, npmScope, libNames, sourceRoot, targetRoot) == Reject(MissingScope)
  {
    ShapesExclusive(imp, npmScope);
    var sp := ScopePrefix(npmScope);
    StartsWithAppend(sp, ".");
    if StartsWith(imp, sp + ".") {
      StartsWithTrans(imp, sp + ".", sp);
    }
    forall x ensures !LazyMatch(imp, npmScope)(x) && !DeepMatch(imp, npmScope)(x) && !ExactMatch(imp, npmScope)(x) {
      StartsWithAppend(sp, x + "/");
      assert sp + x + "/" == sp + (x + "/");
      StartsWithAppend(sp, x);
      if StartsWith(imp, sp + x + "/") {
        StartsWithTrans(imp, sp + x + "/", sp);
      }
    }
    NoMatchIsFalsy(opts.lazyLoad, LazyMatch(imp, npmScope));
    NoMatchIsFalsy(libNames, DeepMatch(imp, npmScope));
    LastCheckAcceptsOnlyLibraryNames(imp, opts, npmScope, libNames, sourceRoot, targetRoot);
  }
}
