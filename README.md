# Module boundaries of an Nx workspace, in Dafny

This project models the `EnforceModuleBoundariesWalker` of the Nx tslint rule
`nxEnforceModuleBoundariesRule`. For each import declaration of a TypeScript
file, the walker decides whether the import respects the workspace's module
boundaries:

- which application (`apps/...`) or library (`libs/...`) root the importing file lies in;
- which root the import points into;
- whether the import is allow-listed, lazy-loaded, a deep import, or spelled without the npm scope.

The walker records at most one failure per import. Each failure carries one of
five fixed messages.

The model follows the rule's TypeScript, split into these modules:

- `JsStrings` (`js_strings.dfy`): the JavaScript string operations the rule
  uses, with their ECMAScript edge cases, on strings of characters (see
  "Left out" on UTF-16). `substring` clamps and swaps its
  indices, `indexOf` returns -1 when the character is absent, and `split`
  always returns at least one piece.
- `PosixPath` (`posix_path.dfy`): `path.dirname` and `path.resolve` as Node's
  POSIX implementation computes them. Resolution normalises segments: empty
  and `.` segments vanish, and `..` removes the last kept segment, doing
  nothing at the root.
- `RootLookup` (`root_lookup.dfy`): `filter(p)[0]` over the roots, and the
  constructor's sort of a copy of the roots by descending length.
- `Classifier` (`classifier.dfy`): `sourceRoot`, `targetRoot` and
  `isRelative`. An unmatched lookup (`undefined`) and the literal `''` are
  both falsy in the source. The model represents both as `""`.
- `BoundaryRule` (`boundary_rule.dfy`): option parsing and the first-match-wins
  decision chain of `visitImportDeclaration`, as a function `Decide` that
  returns a verdict.
- `ModuleBoundaries` (`module_boundaries.dfy`): the walker itself, a class whose
  `failures` sequence grows by at most one entry per visited import. Beside it
  are the pure functions `Visit` and `LintImports`, which specify it, and the
  method `Apply`, which runs a fresh walker over a file's imports.
- `Scenarios` (`scenarios.dfy`): the workspaces and imports of the rule's
  test file, each proved to give exactly the failures the test expects.

Behaviours of the code worth noting:

- the allow-list is an exact membership test (`indexOf`), with no pattern matching;
- the last rejection is always `library imports must start with @<scope>/`,
  with no separate wording for applications;
- the app check rejects every target under `apps/`, without comparing it with
  the source root;
- a scoped specifier is looked up once, against every root with its first
  directory removed. It is not looked up in the libraries first and the
  applications second. So the longest-first order decides between
  `libs/x/...` and `apps/x` (`Scenarios.UnsortedUnderAppTarget`), and the
  input order between `libs/x` and `apps/x`, which have the same length.

Some test scenarios pass for a reason other than the one their names give:

- "relatively importing the same library (index file)"
  (`Scenarios.RelativeIntoNoRoot`) passes because `../../libgroup/mylib`
  resolves to `libs/libgroup/libgroup/mylib`. That path lies under no root,
  so the import is unclassified.
- Neither reporting workspace ("libs contain the same prefix") has a root
  holding the importing file, so every import there is accepted as
  unclassified (`Scenarios.SharedPrefixNoFailures`).
- The deep-import test itself does not take `reporting` for a parent of
  `reporting-dashboard-ui`. The model proves this separately, with both roots
  classified (`Scenarios.PrefixIsNotDeep`).

## Model

Source cells are paths of the rule's repository.

| member | source | states |
|---|---|---|
| JsStrings.StartsWith | packages/schematics/src/tslint/nxEnforceModuleBoundariesRule.ts:80 | `s.startsWith(prefix)`: the prefix is no longer than `s` and equals its first characters; used by every `startsWith` of the rule (lines 80-147) |
| JsStrings.Clamp | packages/schematics/src/tslint/nxEnforceModuleBoundariesRule.ts:63 | an index passed to `substring` is clamped into `0..length` |
| JsStrings.Substring | packages/schematics/src/tslint/nxEnforceModuleBoundariesRule.ts:63 | for indices inside the string, `substring(start, end)` is the slice between them, taken in either order; it is never longer than the string |
| JsStrings.SubstringClamped | packages/schematics/src/tslint/nxEnforceModuleBoundariesRule.ts:63 | for any indices, `substring(start, end)` is the slice between the two clamped indices, the smaller one first |
| JsStrings.SubstringFrom | packages/schematics/src/tslint/nxEnforceModuleBoundariesRule.ts:125 | `substring(start)` is the whole string for `start <= 0`, the suffix from `start` inside the string, and empty past the end |
| JsStrings.IndexOf | packages/schematics/src/tslint/nxEnforceModuleBoundariesRule.ts:138 | `indexOf(c)` is -1 exactly when `c` is absent; otherwise it is the index of the first `c` |
| JsStrings.Split | packages/schematics/src/tslint/nxEnforceModuleBoundariesRule.ts:133 | `split(c)` gives at least one piece, and no piece contains `c` |
| JsStrings.Join | packages/schematics/src/tslint/nxEnforceModuleBoundariesRule.ts:134 | `parts.join(c)`: the pieces with `c` between each two; `JoinSplit` and `SplitJoin` state it against `Split` |
| JsStrings.JoinSplit | packages/schematics/src/tslint/nxEnforceModuleBoundariesRule.ts:133-134 | `split('/').join('/')` is the identity on every string |
| JsStrings.SplitJoin | packages/schematics/src/tslint/nxEnforceModuleBoundariesRule.ts:133-134 | joining separator-free pieces and splitting again gives back the pieces |
| JsStrings.SplitConcat | packages/schematics/src/tslint/nxEnforceModuleBoundariesRule.ts:133 | splitting `a + c + b` at `c` splits `a` and `b` separately and concatenates the results |
| PosixPath.Resolve | packages/schematics/src/tslint/nxEnforceModuleBoundariesRule.ts:131 | `path.resolve(dir, p)`: `p` if absolute, else `dir/p` if `dir` is absolute, else `cwd/dir/p`, normalised; what it computes is stated by `ResolveAbsoluteDir`, `ResolveBelow` and `ResolveIdempotent` |
| PosixPath.Normalize | packages/schematics/src/tslint/nxEnforceModuleBoundariesRule.ts:131 | the segments that survive normalisation of an absolute path are all plain names |
| PosixPath.Dirname | packages/schematics/src/tslint/nxEnforceModuleBoundariesRule.ts:131 | `path.dirname(p)` is `.`, `/`, `//` or a proper prefix of `p` |
| PosixPath.DirnameChild | packages/schematics/src/tslint/nxEnforceModuleBoundariesRule.ts:131 | the directory of `dir/name` is `dir` |
| PosixPath.NormalizeOntoNames | packages/schematics/src/tslint/nxEnforceModuleBoundariesRule.ts:131 | plain names are kept unchanged, after what is already kept |
| PosixPath.NormalizeOntoUps | packages/schematics/src/tslint/nxEnforceModuleBoundariesRule.ts:131 | `k` parent segments climb `k` directories, and stop at the root |
| PosixPath.NormalizeOntoAppend | packages/schematics/src/tslint/nxEnforceModuleBoundariesRule.ts:131 | normalising `a + b` is normalising `b` on top of the normalised `a` |
| PosixPath.NormalizeIdempotent | packages/schematics/src/tslint/nxEnforceModuleBoundariesRule.ts:131 | normalisation is idempotent |
| PosixPath.ResolveAbsoluteDir | packages/schematics/src/tslint/nxEnforceModuleBoundariesRule.ts:131 | with an absolute directory and a relative specifier, the working directory plays no part |
| PosixPath.ResolveBelow | packages/schematics/src/tslint/nxEnforceModuleBoundariesRule.ts:131 | resolving `k` times `../` and then names against `/d1/.../dn` gives `/d1/.../d(n-k)/names` |
| PosixPath.ResolveIdempotent | packages/schematics/src/tslint/nxEnforceModuleBoundariesRule.ts:131 | a resolved path resolves to itself, whatever the directory and working directory |
| RootLookup.Filter | packages/schematics/src/tslint/nxEnforceModuleBoundariesRule.ts:126 | `filter(p)` keeps exactly the elements that satisfy `p` |
| RootLookup.FirstOf | packages/schematics/src/tslint/nxEnforceModuleBoundariesRule.ts:126 | `filter(p)[0]` is undefined exactly when nothing matches, and otherwise is the first element that matches |
| RootLookup.FirstOfCons | packages/schematics/src/tslint/nxEnforceModuleBoundariesRule.ts:126 | the lookup tests the elements one at a time, from the front |
| RootLookup.SortLongestFirst | packages/schematics/src/tslint/nxEnforceModuleBoundariesRule.ts:59 | the sorted roots are in non-increasing order of length, and are a permutation of the input |
| RootLookup.InsertByLength | packages/schematics/src/tslint/nxEnforceModuleBoundariesRule.ts:59 | inserting into a longest-first list keeps it longest first and adds exactly that element |
| RootLookup.SortIsStable | packages/schematics/src/tslint/nxEnforceModuleBoundariesRule.ts:59 | the sort is stable: the roots of each length come out in the order they were given in |
| RootLookup.InsertKeepsLengthOrder | packages/schematics/src/tslint/nxEnforceModuleBoundariesRule.ts:59 | an inserted root goes ahead of the roots of its own length, whose order is kept |
| RootLookup.SortSortedIdentity | packages/schematics/src/tslint/nxEnforceModuleBoundariesRule.ts:59 | the sort leaves a list that is already longest first unchanged |
| RootLookup.LookupIsLongestMatch | packages/schematics/src/tslint/nxEnforceModuleBoundariesRule.ts:126 | on longest-first roots, the lookup gives a longest matching root, and gives "" exactly when no non-empty root matches |
| RootLookup.FirstOfIsLongest | packages/schematics/src/tslint/nxEnforceModuleBoundariesRule.ts:126 | on a longest-first list, the first match is at least as long as every other match |
| RootLookup.SortedLookupIgnoresOrder | packages/schematics/src/tslint/nxEnforceModuleBoundariesRule.ts:59 | when no two roots of the same length both match, the lookup on the sorted roots does not depend on the input order |
| RootLookup.LongestFirstLookupsAgree | packages/schematics/src/tslint/nxEnforceModuleBoundariesRule.ts:126 | any two longest-first arrangements of the same roots give the same first match, when no two matching roots share a length |
| Classifier.IsRelative | packages/schematics/src/tslint/nxEnforceModuleBoundariesRule.ts:146-148 | a specifier is relative when it starts with `.`; `ShapesExclusive` shows such a specifier is neither scoped nor raw |
| Classifier.IsRaw | packages/schematics/src/tslint/nxEnforceModuleBoundariesRule.ts:139 | a raw workspace path starts with `apps/` or `libs/`, the test of lines 92 and 139; `ShapesExclusive` shows it is never scoped |
| Classifier.PrefixMatch | packages/schematics/src/tslint/nxEnforceModuleBoundariesRule.ts:135 | the root test of the source file and of relative targets (lines 126 and 135): the root prefixes the path; its lookups are stated by `SourceRoot` and `RelativeTargetIsLongestRoot` |
| Classifier.ScopeStripped | packages/schematics/src/tslint/nxEnforceModuleBoundariesRule.ts:138 | `r.substring(r.indexOf('/'))`: the root from its first `/` on; `ScopeStrippedRoot` gives its value for `base/rest` |
| Classifier.ScopedHit | packages/schematics/src/tslint/nxEnforceModuleBoundariesRule.ts:138 | the root test of a scoped specifier: the root without its first directory (`ScopeStrippedRoot`) prefixes the specifier without its scope |
| Classifier.ScopedMatch | packages/schematics/src/tslint/nxEnforceModuleBoundariesRule.ts:138 | `ScopedHit` as the predicate given to `filter`; its lookup is stated by `ScopedTargetIsLongestRoot` |
| Classifier.RawMatch | packages/schematics/src/tslint/nxEnforceModuleBoundariesRule.ts:140 | the root test of a raw path: the path is the root or lies below it at a separator; its lookup is stated by `RawTargetIsLongestRoot` |
| Classifier.ProjectRelative | packages/schematics/src/tslint/nxEnforceModuleBoundariesRule.ts:125 | a path below the project directory is that directory, a separator, and the result |
| Classifier.SourceRoot | packages/schematics/src/tslint/nxEnforceModuleBoundariesRule.ts:124-127 | the source root is "" or a root prefixing the file's project-relative path; on sorted roots it is a longest such root, and is "" exactly when no non-empty root prefixes the path |
| Classifier.RelativeTarget | packages/schematics/src/tslint/nxEnforceModuleBoundariesRule.ts:131-134 | the relative target is the resolved path made project-relative: `split(path.sep).join('/')` changes nothing |
| Classifier.TargetRoot | packages/schematics/src/tslint/nxEnforceModuleBoundariesRule.ts:129-144 | the target root is "" or one of the roots, and is "" for a specifier that is neither relative, scoped nor raw; for each shape, which root it is, is stated by the three `...TargetIsLongestRoot` lemmas |
| Classifier.ShapesExclusive | packages/schematics/src/tslint/nxEnforceModuleBoundariesRule.ts:130-139 | a relative specifier is neither scoped nor raw, and a raw one is not scoped, so the three branches never compete |
| Classifier.RelativeTargetIsLongestRoot | packages/schematics/src/tslint/nxEnforceModuleBoundariesRule.ts:130-135 | a relative specifier points into the longest root prefixing its resolved path, or into "" exactly when there is no such root |
| Classifier.ScopedBranchTaken | packages/schematics/src/tslint/nxEnforceModuleBoundariesRule.ts:136-138 | a specifier starting with `@scope/` is looked up with the scoped root test, on what follows the scope |
| Classifier.ScopedTargetIsLongestRoot | packages/schematics/src/tslint/nxEnforceModuleBoundariesRule.ts:136-138 | on sorted roots, a scoped specifier points into a longest root whose stripped form prefixes what follows the scope, and into "" exactly when no non-empty root's does |
| Classifier.RawTargetIsLongestRoot | packages/schematics/src/tslint/nxEnforceModuleBoundariesRule.ts:139-140 | a raw path points into the longest root that it equals or lies below at a separator |
| Classifier.ScopeStrippedRoot | packages/schematics/src/tslint/nxEnforceModuleBoundariesRule.ts:138 | `r.substring(r.indexOf('/'))` of `base/rest` is `/rest` |
| Classifier.SourceRootIgnoresOrder | packages/schematics/src/tslint/nxEnforceModuleBoundariesRule.ts:59 | the source root does not depend on the order the roots are given in |
| Classifier.TargetRootIgnoresOrder | packages/schematics/src/tslint/nxEnforceModuleBoundariesRule.ts:59 | the target root of a non-scoped specifier does not depend on the order the roots are given in |
| Classifier.ScopedTargetIgnoresOrder | packages/schematics/src/tslint/nxEnforceModuleBoundariesRule.ts:59 | the target root of a scoped specifier does not depend on the order the roots are given in, when no two matching roots have the same length |
| BoundaryRule.Message | packages/schematics/src/tslint/nxEnforceModuleBoundariesRule.ts:81-117 | the five fixed failure texts, two of them naming the scope; `MessagesDistinct` proves them pairwise different |
| BoundaryRule.LazyMatch | packages/schematics/src/tslint/nxEnforceModuleBoundariesRule.ts:103 | the lazy-load test: the specifier is `@scope/l` or lies below it; `LazyLoadedRejected` states its use |
| BoundaryRule.DeepMatch | packages/schematics/src/tslint/nxEnforceModuleBoundariesRule.ts:110 | the deep-import test: the specifier lies below `@scope/l`; `DeepImportRejected` and `PrefixIsNotDeep` state its use |
| BoundaryRule.ExactMatch | packages/schematics/src/tslint/nxEnforceModuleBoundariesRule.ts:116 | the library test: the specifier is exactly `@scope/l`; `ExactFilterNamesLibrary` states its use |
| BoundaryRule.Decide | packages/schematics/src/tslint/nxEnforceModuleBoundariesRule.ts:73-121 | the decision chain in source order, first match wins; each step is stated by the lemmas from `AllowListedAccepted` to `CrossRootPathRejected` |
| BoundaryRule.ListOrEmpty | packages/schematics/src/tslint/nxEnforceModuleBoundariesRule.ts:64-69 | `Array.isArray(o) ? o : []`: an array option is taken as is, anything else is `[]`; `ParseOptions` states its use |
| BoundaryRule.ParseOptions | packages/schematics/src/tslint/nxEnforceModuleBoundariesRule.ts:64-69 | reading the options throws exactly when the first argument is missing or nullish; otherwise each array-valued option is taken as is, and any other value is read as `[]` |
| BoundaryRule.MessagesDistinct | packages/schematics/src/tslint/nxEnforceModuleBoundariesRule.ts:81-117 | the five failure messages are pairwise different |
| BoundaryRule.AllowListedAccepted | packages/schematics/src/tslint/nxEnforceModuleBoundariesRule.ts:73-77 | a specifier in `allow` is accepted, whatever the roots and the other options |
| BoundaryRule.ScopedRelativeRejected | packages/schematics/src/tslint/nxEnforceModuleBoundariesRule.ts:79-83 | a specifier starting with `@scope/.` that is not allow-listed is rejected as a relative scoped import, even when unclassified |
| BoundaryRule.UnclassifiedAccepted | packages/schematics/src/tslint/nxEnforceModuleBoundariesRule.ts:85-89 | with an unclassified source or target, every import except an `@scope/.` one is accepted |
| BoundaryRule.SameRootPathAccepted | packages/schematics/src/tslint/nxEnforceModuleBoundariesRule.ts:85-95 | a relative or raw-path import whose two roots are equal is accepted |
| BoundaryRule.AppTargetRejected | packages/schematics/src/tslint/nxEnforceModuleBoundariesRule.ts:97-100 | once the app check is reached, a target root under `apps/` is rejected as an app import, even when it is the source root |
| BoundaryRule.LazyLoadedRejected | packages/schematics/src/tslint/nxEnforceModuleBoundariesRule.ts:102-108 | past the app check, a specifier equal to or below `@scope/l` for a lazy-loaded `l` is rejected as lazy-loaded, ahead of the deep-import check |
| BoundaryRule.DeepImportRejected | packages/schematics/src/tslint/nxEnforceModuleBoundariesRule.ts:110-114 | past the lazy-load check, whose lookup is falsy (nothing matched, or a `''` matched first), a specifier below `@scope/l` for a library `l` is rejected as a deep import |
| BoundaryRule.LastCheckAcceptsOnlyLibraryNames | packages/schematics/src/tslint/nxEnforceModuleBoundariesRule.ts:116-121 | past every earlier check, including a lazy-load or deep-import lookup that is falsy because a `''` matched first, the import is accepted exactly when it is `@scope/l` for a library `l`; otherwise it gets the missing-scope message |
| BoundaryRule.ExactFilterNamesLibrary | packages/schematics/src/tslint/nxEnforceModuleBoundariesRule.ts:116 | the `filter(...).length > 0` test holds exactly when the specifier is the scoped name of a library |
| BoundaryRule.CrossRootPathRejected | packages/schematics/src/tslint/nxEnforceModuleBoundariesRule.ts:85-119 | a relative or raw-path import into a different root, not under `apps/`, always gets the missing-scope message |
| ModuleBoundaries.Sorted | packages/schematics/src/tslint/nxEnforceModuleBoundariesRule.ts:59 | the walker's roots are longest first and a permutation of the given roots; all other workspace data is unchanged |
| ModuleBoundaries.StripQuotes | packages/schematics/src/tslint/nxEnforceModuleBoundariesRule.ts:63 | the specifier is the literal's text without its first and last characters |
| ModuleBoundaries.Judge | packages/schematics/src/tslint/nxEnforceModuleBoundariesRule.ts:70-72 | the verdict on a specifier, from the source and target roots looked up in the walker's roots |
| ModuleBoundaries.LintImports | packages/schematics/src/tslint/nxEnforceModuleBoundariesRule.ts:28-39 | the failures after visiting the imports in order; `AtMostOneFailurePerImport`, `ThrowsIffOptionsMissing` and `NoFailuresIffAllAccepted` state what it gives |
| ModuleBoundaries.LintFile | packages/schematics/src/tslint/nxEnforceModuleBoundariesRule.ts:28-39 | `Rule.apply`: `LintImports` over the workspace with its roots sorted; `Apply` meets it |
| ModuleBoundaries.StripQuotesOfLiteral | packages/schematics/src/tslint/nxEnforceModuleBoundariesRule.ts:63 | a quoted literal gives back the text between the quotes, whichever quote character it uses |
| ModuleBoundaries.Visit | packages/schematics/src/tslint/nxEnforceModuleBoundariesRule.ts:62-122 | one visit throws exactly when the options are missing; otherwise it adds no failure exactly when the import is accepted, and adds one failure at the node, with the verdict's message, when it is rejected |
| ModuleBoundaries.EnforceModuleBoundariesWalker.constructor | packages/schematics/src/tslint/nxEnforceModuleBoundariesRule.ts:48-60 | the walker holds the workspace data with its roots sorted longest first, and an empty failure list |
| ModuleBoundaries.EnforceModuleBoundariesWalker.VisitImportDeclaration | packages/schematics/src/tslint/nxEnforceModuleBoundariesRule.ts:62-122 | the method throws exactly when `Visit` does; otherwise it appends exactly `Visit`'s failures, and it leaves the list unchanged when it throws |
| ModuleBoundaries.Apply | packages/schematics/src/tslint/nxEnforceModuleBoundariesRule.ts:28-39 | running a fresh walker over a file's imports gives `LintFile`: the failures of the imports in order, or the exception |
| ModuleBoundaries.AtMostOneFailurePerImport | packages/schematics/src/tslint/nxEnforceModuleBoundariesRule.ts:62-122 | a file never has more failures than imports |
| ModuleBoundaries.ThrowsIffOptionsMissing | packages/schematics/src/tslint/nxEnforceModuleBoundariesRule.ts:64-69 | a walk throws exactly when there is an import to visit and the first rule argument is missing |
| ModuleBoundaries.NoFailuresIffAllAccepted | packages/schematics/src/tslint/nxEnforceModuleBoundariesRule.ts:62-122 | a file has no failures exactly when each of its imports is visited without one |
| Scenarios.DefaultRootsSorted | packages/schematics/src/tslint/nxEnforceModuleBoundariesRule.spec.ts:117 | the test workspace's roots sort to `mylib2`, `mylib`, `myapp2`, `myapp` |
| Scenarios.AppFileSourceRoot | packages/schematics/src/tslint/nxEnforceModuleBoundariesRule.spec.ts:125-126 | `/proj/mycompany/apps/myapp/src/main.ts` lies in `apps/myapp` |
| Scenarios.LibFileSourceRoot | packages/schematics/src/tslint/nxEnforceModuleBoundariesRule.spec.ts:142-143 | `/proj/mycompany/libs/libgroup/mylib/src/module.t` lies in `libs/libgroup/mylib`, not in the longer `mylib2` root |
| Scenarios.ScopedLibTarget | packages/schematics/src/tslint/nxEnforceModuleBoundariesRule.spec.ts:11 | `@mycompany/libgroup/mylib`, and anything below it at a separator, points into `libs/libgroup/mylib` |
| Scenarios.ScopedAppTarget | packages/schematics/src/tslint/nxEnforceModuleBoundariesRule.spec.ts:94 | `@mycompany/myapp` points into `apps/myapp` |
| Scenarios.UpBlahTarget | packages/schematics/src/tslint/nxEnforceModuleBoundariesRule.spec.ts:13 | `../blah` from the application's `src` points into `apps/myapp` |
| Scenarios.EverythingInOrder | packages/schematics/src/tslint/nxEnforceModuleBoundariesRule.spec.ts:7-18 | a scoped library import, an allow-listed deep import and `../blah` give no failures |
| Scenarios.RelativeIntoSameLibrary | packages/schematics/src/tslint/nxEnforceModuleBoundariesRule.spec.ts:21-24 | `../libgroup/mylib2` from the library stays in its own root and gives no failure |
| Scenarios.RelativeIntoNoRoot | packages/schematics/src/tslint/nxEnforceModuleBoundariesRule.spec.ts:26-29 | `../../libgroup/mylib` reaches a path under no root and gives no failure |
| Scenarios.RelativeIntoOtherLibrary | packages/schematics/src/tslint/nxEnforceModuleBoundariesRule.spec.ts:31-41 | `../../../../libs/libgroup/mylib2` and `../../../libgroup/mylib2` each give one failure, with the missing-scope message, at the import |
| Scenarios.RawPathRejected | packages/schematics/src/tslint/nxEnforceModuleBoundariesRule.spec.ts:44-49 | the raw path `libs/libgroup/mylib` gives one missing-scope failure |
| Scenarios.DeepImportReported | packages/schematics/src/tslint/nxEnforceModuleBoundariesRule.spec.ts:51-56 | `@mycompany/libgroup/mylib/blah` gives one deep-import failure |
| Scenarios.SharedPrefixNoFailures | packages/schematics/src/tslint/nxEnforceModuleBoundariesRule.spec.ts:58-84 | the three reporting imports give no failures, with the names and roots in either order |
| Scenarios.PrefixIsNotDeep | packages/schematics/src/tslint/nxEnforceModuleBoundariesRule.ts:110 | with both roots classified, `@mycompany/reporting-dashboard-ui` is accepted: `reporting` is not taken for its parent |
| Scenarios.LazyLoadedReported | packages/schematics/src/tslint/nxEnforceModuleBoundariesRule.spec.ts:86-91 | with `lazyLoad: ['libgroup/mylib']`, `@mycompany/libgroup/mylib` gives one lazy-loaded failure |
| Scenarios.AppImportReported | packages/schematics/src/tslint/nxEnforceModuleBoundariesRule.spec.ts:93-98 | `@mycompany/myapp`, imported from within `apps/myapp` itself, gives one app-import failure |
| Scenarios.UnderAppTarget | packages/schematics/src/tslint/nxEnforceModuleBoundariesRule.spec.ts:100-109 | with the longer root first, `@mycompany/myapp/mylib` points into `libs/myapp/mylib` |
| Scenarios.UnderAppTargetEitherOrder | packages/schematics/src/tslint/nxEnforceModuleBoundariesRule.spec.ts:100-109 | whichever order the two roots are given in, the walker's sorted copy points `@mycompany/myapp/mylib` into `libs/myapp/mylib` |
| Scenarios.UnsortedUnderAppTarget | packages/schematics/src/tslint/nxEnforceModuleBoundariesRule.ts:59 | with `apps/myapp` first, the same lookup would point into the application, so the sort at line 59 decides |
| Scenarios.LibUnderAppNameAccepted | packages/schematics/src/tslint/nxEnforceModuleBoundariesRule.spec.ts:100-109 | `@mycompany/myapp/mylib`, a library named like an application, gives no failure |

## Left out

- The `Rule` constructor's fallback, which reads `.angular-cli.json` through
  `app-root-path` and `readFileSync` (nxEnforceModuleBoundariesRule.ts lines
  18-25 and 42-44). This is file I/O. The workspace data is a parameter
  (`Workspace`) instead.
- `appNames`: the walker stores it but never reads it. It is carried in
  `Workspace` and plays no part.
- The tslint and TypeScript plumbing: `applyWithWalker`, the AST walk,
  `super.visitImportDeclaration`, `getText()`, `getStart()` and `getWidth()`.
  An import is an `ImportNode` holding its specifier's source text and an
  opaque start and width, and a failure is a `RuleFailure` record.
- The `super.visitImportDeclaration` calls on the accepting branches. They
  walk into the node's children, which hold no further import declarations.
- `path.sep` on platforms other than POSIX. The separator is `/`, so
  `split(path.sep).join('/')` is the identity (`JsStrings.JoinSplit`).
- The process's working directory, which `path.resolve` falls back on for a
  relative file name. It is a parameter (`cwd`), standing for an absolute
  directory as `process.cwd()` always is.
- The `${a}` conversion of the option lists' elements to strings. The
  elements are taken to be strings already.
- RootLookup.SortLongestFirst: the sort is stable (`RootLookup.SortIsStable`),
  as `Array.prototype.sort` has been since ES2019. An older engine's unstable
  sort could order roots of equal length differently. That only matters for a
  scoped specifier that two roots of one length match
  (`Classifier.ScopedTargetIgnoresOrder` excludes that case).
- UTF-16 code units: a JavaScript string is a sequence of UTF-16 code units,
  while a Dafny `string` is a sequence of Unicode characters. `.length` and
  the `substring` indices (lines 59, 63, 125, 137-138) count code units. For
  a root or specifier with characters outside the Basic Multilingual Plane,
  the model's lengths are smaller than the source's. That can change the
  sort's order of two roots, and so the scoped lookup. The model counts
  characters.
- BoundaryRule.LazyLoadedRejected: requires that `lazyLoad` holds no empty
  name. The source tests `lazyLoaded` for truthiness, so a matching `''`
  earlier in the list would hide a later match. `Decide` models that
  faithfully.
- BoundaryRule.DeepImportRejected: requires that no library name is empty,
  for the same truthiness reason (line 111).
- The other files of the repository: the Angular schematics and their tests,
  which run against virtual file trees, and a type-only options interface.
  None of them is part of this model.
