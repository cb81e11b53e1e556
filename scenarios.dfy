/**
 * The rule's own test workspace, and what the model says about the imports
 * its test file lints. The workspace lives at /proj/mycompany with npm scope
 * `mycompany`; it has the libraries libgroup/mylib, libgroup/mylib2 and
 * libgroup/myliblazy and the applications myapp and myapp2. The strings are
 * written as concatenations of their segments, which is how the proofs take
 * them apart.
 */
module Scenarios {
  import opened Wrappers
  import opened JsStrings
  import opened PosixPath
  import opened RootLookup
  import opened Classifier
  import opened BoundaryRule
  import opened ModuleBoundaries

  const Scope: string := "mycompany"
  /** `/proj/mycompany` */
  const ProjectPath: string := "/" + "proj" + "/" + Scope

  /** `libgroup/mylib` */
  const MyLib: string := "libgroup" + "/" + "mylib"
  /** `libgroup/mylib2` */
  const MyLib2: string := "libgroup" + "/" + "mylib2"
  /** `libgroup/myliblazy` */
  const MyLibLazy: string := "libgroup" + "/" + "myliblazy"

  const LibRoot: string := "libs" + "/" + MyLib
  const Lib2Root: string := "libs" + "/" + MyLib2
  const AppRoot: string := "apps" + "/" + "myapp"
  const App2Root: string := "apps" + "/" + "myapp2"

  const LibNames: seq<string> := [MyLib, MyLib2, MyLibLazy]
  const AppNames: seq<string> := ["myapp", "myapp2"]
  const Roots: seq<string> := [LibRoot, Lib2Root, AppRoot, App2Root]
  /** The roots as the walker holds them. */
  const SortedRoots: seq<string> := [Lib2Root, LibRoot, App2Root, AppRoot]

  /** `/proj/mycompany/apps/myapp/src` and the file `main.ts` in it. */
  const AppDir: string := ProjectPath + "/" + AppRoot + "/" + "src"
  const AppFile: string := AppDir + "/" + "main.ts"
  /** `/proj/mycompany/libs/libgroup/mylib/src` and the file `module.t` in it. */
  const LibDir: string := ProjectPath + "/" + LibRoot + "/" + "src"
  const LibFile: string := LibDir + "/" + "module.t"

  const Default: Workspace := Workspace(ProjectPath, Scope, LibNames, AppNames, Roots)
  const DefaultSorted: Workspace := Workspace(ProjectPath, Scope, LibNames, AppNames, SortedRoots)

  /** The rule argument `{}`: neither option is set. */
  const Empty: RuleArgument := Value(NotArray, NotArray)
  /** What `{}` reads as. */
  const NoOptions: RuleOptions := RuleOptions([], [])

  /** The scoped package name of `name`. */
  function Pkg(name: string): string {
    ScopePrefix(Scope) + name
  }

  /** An import declaration at `start` whose specifier is `imp` between two `quote` characters. */
  function Import(quote: char, start: int, width: int, imp: string): ImportNode {
    ImportNode(start, width, [quote] + imp + [quote])
  }

  // ---------------------------------------------------------------- helpers

  lemma SortOne(d: string)
    ensures SortLongestFirst([d]) == [d]
  {
    assert [d][1..] == [];
  }

  lemma SortTwo(c: string, d: string)
    requires |c| == 10 && |d| == 11
    ensures SortLongestFirst([c, d]) == [d, c]
  {
    SortOne(d);
    assert [c, d][1..] == [d];
    assert InsertByLength(c, [d]) == [d] + InsertByLength(c, []);
  }

  lemma SortThree(b: string, c: string, d: string)
    requires |b| == 20 && |c| == 10 && |d| == 11
    ensures SortLongestFirst([b, c, d]) == [b, d, c]
  {
    SortTwo(c, d);
    assert [b, c, d][1..] == [c, d];
  }

  lemma InsertSecond(a: string, b: string, d: string, c: string)
    requires |a| == 19 && |b| == 20 && |c| == 10 && |d| == 11
    ensures LongestFirst([b, d, c]) && InsertByLength(a, [b, d, c]) == [b, a, d, c]
  {
    assert [b, d, c][1..] == [d, c];
  }

  lemma FirstOfFour<T(!new)>(a: T, b: T, c: T, d: T, p: T -> bool)
    ensures FirstOf([a, b, c, d], p) ==
      if p(a) then Some(a) else if p(b) then Some(b) else if p(c) then Some(c) else if p(d) then Some(d) else None
  {
    assert [a, b, c, d] == [a] + [b, c, d] && [b, c, d] == [b] + [c, d] && [c, d] == [c] + [d] && [d] == [d] + [];
    FirstOfCons(a, [b, c, d], p);
    FirstOfCons(b, [c, d], p);
    FirstOfCons(c, [d], p);
    FirstOfCons(d, [], p);
  }

  lemma ProjectRelativeOf(projectPath: string, rest: string)
    ensures ProjectRelative(projectPath, projectPath + "/" + rest) == rest
  {
    assert (projectPath + "/" + rest)[|projectPath| + 1..] == rest;
  }

  lemma ScopedRest(name: string)
    ensures SubstringFrom(Pkg(name), |Scope| + 1) == "/" + name
  {
    assert Pkg(name)[|Scope| + 1..] == "/" + name;
  }

  lemma StripQuotesOfImport(quote: char, start: int, width: int, imp: string)
    ensures StripQuotes(Import(quote, start, width, imp).specifierText) == imp
  {
    StripQuotesOfLiteral(quote, imp);
  }

  lemma JoinCons(a: string, rest: seq<string>)
    requires |rest| >= 1
    ensures Join([a] + rest, '/') == a + "/" + Join(rest, '/')
  {
    assert ([a] + rest)[1..] == rest;
  }

  /** Linting a file with one import gives what visiting that import gives. */
  lemma LintOne(ws: Workspace, cwd: string, fileName: string, args: seq<RuleArgument>, node: ImportNode)
    requires ParseOptions(args).Some?
    ensures LintFile(ws, cwd, fileName, args, [node]) == Failures(Visit(Sorted(ws), cwd, fileName, args, node).value)
  {
    LintSingle(Sorted(ws), cwd, fileName, args, node);
  }

  lemma LintSingle(ws: Workspace, cwd: string, fileName: string, args: seq<RuleArgument>, node: ImportNode)
    requires ParseOptions(args).Some?
    ensures LintImports(ws, cwd, fileName, args, [node]) == Failures(Visit(ws, cwd, fileName, args, node).value)
  {
    assert [node][..0] == [];
  }

  // ---------------------------------------------------------------- the roots

  /** Line 59 on the default roots: the longer name of each pair comes first. */
  lemma DefaultRootsSorted()
    ensures Sorted(Default) == DefaultSorted
  {
    assert |LibRoot| == 19 && |Lib2Root| == 20 && |AppRoot| == 10 && |App2Root| == 11;
    SortThree(Lib2Root, AppRoot, App2Root);
    assert Roots[1..] == [Lib2Root, AppRoot, App2Root];
    InsertSecond(LibRoot, Lib2Root, App2Root, AppRoot);
  }

  /** The application file belongs to `apps/myapp`, although `apps/myapp2` is tried before it. */
  lemma AppFileSourceRoot()
    ensures SourceRoot(SortedRoots, ProjectPath, AppFile) == AppRoot
  {
    var rel := AppRoot + AppTail;
    AppFileRelative();
    AppFileMatches();
    FirstOfFour(Lib2Root, LibRoot, App2Root, AppRoot, PrefixMatch(rel));
  }

  const AppTail: string := "/" + "src" + "/" + "main.ts"
  const LibTail: string := "/" + "src" + "/" + "module.t"

  lemma AppFileRelative()
    ensures ProjectRelative(ProjectPath, AppFile) == AppRoot + AppTail
  {
    assert AppFile == ProjectPath + "/" + (AppRoot + AppTail);
    ProjectRelativeOf(ProjectPath, AppRoot + AppTail);
  }

  lemma AppFileMatches()
    ensures var rel := AppRoot + AppTail;
      !StartsWith(rel, Lib2Root) && !StartsWith(rel, LibRoot) && !StartsWith(rel, App2Root) && StartsWith(rel, AppRoot)
  {
    var rel := AppRoot + AppTail;
    assert rel[0] == 'a' && rel[10] == '/';
    NotStartsWithAt(rel, Lib2Root, 0);
    NotStartsWithAt(rel, LibRoot, 0);
    NotStartsWithAt(rel, App2Root, 10);
    StartsWithAppend(AppRoot, AppTail);
  }

  /** The library file belongs to `libs/libgroup/mylib`, although `libs/libgroup/mylib2` is tried before it. */
  lemma LibFileSourceRoot()
    ensures SourceRoot(SortedRoots, ProjectPath, LibFile) == LibRoot
  {
    var rel := LibRoot + LibTail;
    assert LibFile == ProjectPath + "/" + rel;
    ProjectRelativeOf(ProjectPath, rel);
    assert rel[19] == '/';
    NotStartsWithAt(rel, Lib2Root, 19);
    StartsWithAppend(LibRoot, LibTail);
    FirstOfFour(Lib2Root, LibRoot, App2Root, AppRoot, PrefixMatch(rel));
  }

  // ---------------------------------------------------------------- scoped specifiers

  /** A scoped specifier takes the scoped branch of `targetRoot`, with `/name` as what follows the scope. */
  lemma ScopedBranch(roots: seq<string>, cwd: string, fileName: string, name: string)
    ensures TargetRoot(roots, ProjectPath, Scope, cwd, fileName, Pkg(name))
         == OrEmpty(FirstOf(roots, ScopedMatch("/" + name)))
  {
    var imp := Pkg(name);
    assert imp[0] == '@';
    NotStartsWithAt(imp, ".", 0);
    StartsWithAppend(ScopePrefix(Scope), name);
    ScopedRest(name);
  }

  /** `@mycompany/libgroup/mylib` and anything below it points into `libs/libgroup/mylib`, not into `libs/libgroup/mylib2`. */
  lemma ScopedLibTarget(cwd: string, fileName: string, rest: string)
    requires rest == "" || rest[0] == '/'
    ensures TargetRoot(SortedRoots, ProjectPath, Scope, cwd, fileName, Pkg(MyLib + rest)) == LibRoot
  {
    ScopedBranch(SortedRoots, cwd, fileName, MyLib + rest);
    ScopedLibMatches(rest);
    SecondRootFirst(ScopedMatch("/" + (MyLib + rest)));
  }

  lemma ScopedLibMatches(rest: string)
    requires rest == "" || rest[0] == '/'
    ensures !ScopedMatch("/" + (MyLib + rest))(Lib2Root) && ScopedMatch("/" + (MyLib + rest))(LibRoot)
  {
    LibMissesLib2(rest);
    LibHitsLib(rest);
  }

  lemma LibMissesLib2(rest: string)
    requires rest == "" || rest[0] == '/'
    ensures !ScopedMatch("/" + (MyLib + rest))(Lib2Root)
  {
    var s := "/" + (MyLib + rest);
    assert rest != "" ==> s[15] == rest[0];
    ScopedMiss(s, "libs", MyLib2, 15);
  }

  lemma LibHitsLib(rest: string)
    ensures ScopedMatch("/" + (MyLib + rest))(LibRoot)
  {
    StrippedRootHits("/" + (MyLib + rest), "libs", MyLib, rest);
  }

  /** `@mycompany/myapp` points into `apps/myapp`: the scoped test does not look at the base directory. */
  lemma ScopedAppTarget(cwd: string, fileName: string)
    ensures TargetRoot(SortedRoots, ProjectPath, Scope, cwd, fileName, Pkg("myapp")) == AppRoot
  {
    ScopedBranch(SortedRoots, cwd, fileName, "myapp");
    ScopedAppMatches();
    LastRootFirst(ScopedMatch("/" + "myapp"));
  }

  lemma ScopedAppMatches()
    ensures !ScopedMatch("/" + "myapp")(Lib2Root) && !ScopedMatch("/" + "myapp")(LibRoot)
    ensures !ScopedMatch("/" + "myapp")(App2Root) && ScopedMatch("/" + "myapp")(AppRoot)
  {
    AppMissesLib2(); AppMissesLib(); AppMissesApp2(); AppHitsApp();
  }

  lemma AppMissesLib2() ensures !ScopedMatch("/" + "myapp")(Lib2Root) { ScopedMiss("/" + "myapp", "libs", MyLib2, 1); }
  lemma AppMissesLib() ensures !ScopedMatch("/" + "myapp")(LibRoot) { ScopedMiss("/" + "myapp", "libs", MyLib, 1); }
  lemma AppMissesApp2() ensures !ScopedMatch("/" + "myapp")(App2Root) { ScopedMiss("/" + "myapp", "apps", "myapp2", 6); }
  lemma AppHitsApp() ensures ScopedMatch("/" + "myapp")(AppRoot) { StrippedRootHits("/" + "myapp", "apps", "myapp", ""); }

  /** The lookup over the sorted roots when the second one is the first to match. */
  lemma SecondRootFirst(p: string -> bool)
    requires !p(Lib2Root) && p(LibRoot)
    ensures FirstOf(SortedRoots, p) == Some(LibRoot)
  {
    FirstOfFour(Lib2Root, LibRoot, App2Root, AppRoot, p);
  }

  /** The lookup over the sorted roots when only the last one matches. */
  lemma LastRootFirst(p: string -> bool)
    requires !p(Lib2Root) && !p(LibRoot) && !p(App2Root) && p(AppRoot)
    ensures FirstOf(SortedRoots, p) == Some(AppRoot)
  {
    FirstOfFour(Lib2Root, LibRoot, App2Root, AppRoot, p);
  }

  /** The root `base/name` does not match a specifier that differs from `/name` at position `i`. */
  lemma ScopedMiss(s: string, base: string, name: string, i: nat)
    requires '/' !in base
    requires i <= |name| && (i >= |s| || s[i] != ("/" + name)[i])
    ensures !ScopedMatch(s)(base + "/" + name)
  {
    ScopeStrippedRoot(base, name);
    NotStartsWithAt(s, "/" + name, i);
  }

  /** The root `base/name` matches `/name` followed by anything. */
  lemma StrippedRootHits(s: string, base: string, name: string, rest: string)
    requires '/' !in base && s == "/" + name + rest
    ensures ScopedMatch(s)(base + "/" + name)
  {
    ScopeStrippedRoot(base, name);
    StartsWithAppend("/" + name, rest);
  }

  // ---------------------------------------------------------------- relative specifiers

  lemma JoinTwo(a: string, b: string)
    ensures Join([a, b], '/') == a + "/" + b
  {
    JoinCons(a, [b]);
    assert [a, b] == [a] + [b];
  }

  lemma JoinThree(a: string, b: string, c: string)
    ensures Join([a, b, c], '/') == a + "/" + b + "/" + c
  {
    JoinTwo(b, c);
    JoinCons(a, [b, c]);
    assert [a, b, c] == [a] + [b, c];
  }

  lemma JoinFour(a: string, b: string, c: string, d: string)
    ensures Join([a, b, c, d], '/') == a + "/" + b + "/" + c + "/" + d
  {
    JoinThree(b, c, d);
    JoinCons(a, [b, c, d]);
    assert [a, b, c, d] == [a] + [b, c, d];
  }

  lemma JoinFive(a: string, b: string, c: string, d: string, e: string)
    ensures Join([a, b, c, d, e], '/') == a + "/" + b + "/" + c + "/" + d + "/" + e
  {
    JoinFour(b, c, d, e);
    JoinCons(a, [b, c, d, e]);
    assert [a, b, c, d, e] == [a] + [b, c, d, e];
  }

  lemma JoinSix(a: string, b: string, c: string, d: string, e: string, f: string)
    ensures Join([a, b, c, d, e, f], '/') == a + "/" + b + "/" + c + "/" + d + "/" + e + "/" + f
  {
    JoinFive(b, c, d, e, f);
    JoinCons(a, [b, c, d, e, f]);
    assert [a, b, c, d, e, f] == [a] + [b, c, d, e, f];
  }

  /** The segments of the application file's directory. */
  const AppDirNames: seq<string> := ["proj", Scope, "apps", "myapp", "src"]
  /** The segments of the library file's directory. */
  const LibDirNames: seq<string> := ["proj", Scope, "libs", "libgroup", "mylib", "src"]

  lemma AppDirNamesOk()
    ensures AllNames(AppDirNames) && forall i :: 0 <= i < |AppDirNames| ==> '/' !in AppDirNames[i]
  {
  }

  lemma LibDirNamesOk()
    ensures AllNames(LibDirNames) && forall i :: 0 <= i < |LibDirNames| ==> '/' !in LibDirNames[i]
  {
  }

  lemma AppDirJoined()
    ensures AppDir == "/" + Join(AppDirNames, '/')
  {
    JoinFive("proj", Scope, "apps", "myapp", "src");
  }

  lemma LibDirJoined()
    ensures LibDir == "/" + Join(LibDirNames, '/')
  {
    JoinSix("proj", Scope, "libs", "libgroup", "mylib", "src");
  }

  lemma AppFileDirname()
    ensures Dirname(AppFile) == AppDir
  {
    assert AppDir[|AppDir| - 1] == 'c';
    DirnameChild(AppDir, "main.ts");
  }

  lemma LibFileDirname()
    ensures Dirname(LibFile) == LibDir
  {
    assert LibDir[|LibDir| - 1] == 'c';
    DirnameChild(LibDir, "module.t");
  }

  /** `../blah` */
  const UpBlah: string := ".." + "/" + "blah"

  /** The directory names above the application's `src`. */
  lemma AppDirAbove()
    ensures AppDirNames[..4] == ["proj", Scope, "apps", "myapp"]
  {
    var d := AppDirNames;
    assert |d[..4]| == 4 && d[..4][0] == d[0] && d[..4][1] == d[1] && d[..4][2] == d[2] && d[..4][3] == d[3];
  }

  lemma UpBlahResolved(cwd: string)
    ensures Resolve(cwd, AppDir, UpBlah) == ProjectPath + "/" + (AppRoot + "/" + "blah")
  {
    AppDirJoined();
    AppDirNamesOk();
    JoinTwo("..", "blah");
    assert [".."] + ["blah"] == ["..", "blah"];
    ResolveBelow(cwd, AppDirNames, [".."], ["blah"]);
    AppDirAbove();
    assert ["proj", Scope, "apps", "myapp"] + ["blah"] == ["proj", Scope, "apps", "myapp", "blah"];
    JoinFive("proj", Scope, "apps", "myapp", "blah");
  }

  /** From the application's `src`, `../blah` resolves to `apps/myapp/blah`, inside the application. */
  lemma UpBlahTarget(cwd: string)
    ensures TargetRoot(SortedRoots, ProjectPath, Scope, cwd, AppFile, UpBlah) == AppRoot
  {
    var rel := AppRoot + "/" + "blah";
    AppFileDirname();
    UpBlahResolved(cwd);
    ProjectRelativeOf(ProjectPath, rel);
    RelativeBranch(SortedRoots, cwd, AppFile, UpBlah);
    BlahMatches();
    LastRootFirst(PrefixMatch(rel));
  }

  lemma BlahMatches()
    ensures var p := PrefixMatch(AppRoot + "/" + "blah"); !p(Lib2Root) && !p(LibRoot) && !p(App2Root) && p(AppRoot)
  {
    var rel := AppRoot + "/" + "blah";
    assert rel[0] == 'a' && rel[10] == '/';
    NotStartsWithAt(rel, Lib2Root, 0);
    NotStartsWithAt(rel, LibRoot, 0);
    NotStartsWithAt(rel, App2Root, 10);
    StartsWithAppend(AppRoot, "/" + "blah");
    assert rel == AppRoot + ("/" + "blah");
  }

  /** A relative specifier takes the first branch of `targetRoot`. */
  lemma RelativeBranch(roots: seq<string>, cwd: string, fileName: string, imp: string)
    requires imp != "" && imp[0] == '.'
    ensures TargetRoot(roots, ProjectPath, Scope, cwd, fileName, imp)
         == OrEmpty(FirstOf(roots, PrefixMatch(ProjectRelative(ProjectPath, Resolve(cwd, Dirname(fileName), imp)))))
  {
  }

  lemma {:induction false} JoinAppend(a: seq<string>, b: seq<string>)
    requires |a| >= 1 && |b| >= 1
    ensures Join(a + b, '/') == Join(a, '/') + "/" + Join(b, '/')
    decreases |a|
  {
    if |a| == 1 {
      assert a + b == [a[0]] + b;
      JoinCons(a[0], b);
    } else {
      assert a + b == [a[0]] + (a[1..] + b);
      JoinCons(a[0], a[1..] + b);
      JoinAppend(a[1..], b);
      assert a == [a[0]] + a[1..];
      JoinCons(a[0], a[1..]);
    }
  }

  /** A path below the workspace directory, given by its segments after `proj` and `mycompany`. */
  lemma ProjectJoined(r: seq<string>)
    requires |r| >= 1
    ensures "/" + Join(["proj", Scope] + r, '/') == ProjectPath + "/" + Join(r, '/')
  {
    RootedJoin("proj", Scope, r);
  }

  lemma RootedJoin(a: string, b: string, r: seq<string>)
    requires |r| >= 1
    ensures "/" + Join([a, b] + r, '/') == "/" + a + "/" + b + "/" + Join(r, '/')
  {
    JoinAppend([a, b], r);
    JoinTwo(a, b);
    var j := Join(r, '/');
    Assoc("/", a + "/" + b + "/", j);
    Assoc("/", a + "/" + b, "/");
    Assoc("/", a + "/", b);
    Assoc("/", a, "/");
  }

  lemma Assoc(x: string, y: string, z: string)
    ensures x + (y + z) == x + y + z
  {
  }

  /** Concatenation regrouped. */
  lemma Regroup(x: string, a: string, b: string)
    ensures x + (a + "/" + b) == x + a + "/" + b
  {
  }

  /**
   * From the library's `src`, climbing `|ups|` directories and descending
   * into `qs` reaches the workspace path `r`.
   */
  lemma LibRelative(cwd: string, ups: seq<string>, qs: seq<string>, r: seq<string>)
    requires 1 <= |ups| <= 4 && forall i :: 0 <= i < |ups| ==> ups[i] == ".."
    requires AllNames(qs) && forall i :: 0 <= i < |qs| ==> '/' !in qs[i]
    requires |qs| >= 1 && r == LibDirNames[2..6 - |ups|] + qs
    ensures ProjectRelative(ProjectPath, Resolve(cwd, Dirname(LibFile), Join(ups + qs, '/'))) == Join(r, '/')
  {
    LibFileDirname();
    LibDirJoined();
    LibDirNamesOk();
    ResolveBelow(cwd, LibDirNames, ups, qs);
    PrefixThenRest(LibDirNames, 6 - |ups|, qs);
    assert LibDirNames[..2] == ["proj", Scope];
    ProjectJoined(r);
    ProjectRelativeOf(ProjectPath, Join(r, '/'));
  }

  /** The workspace-relative parts of the library directory that one, two or three `..` leave. */
  lemma LibDirSlices()
    ensures LibDirNames[2..5] == ["libs", "libgroup", "mylib"]
    ensures LibDirNames[2..4] == ["libs", "libgroup"]
    ensures LibDirNames[2..3] == ["libs"]
    ensures LibDirNames[2..2] == []
  {
    var d := LibDirNames;
    assert d[2] == "libs" && d[3] == "libgroup" && d[4] == "mylib";
    assert |d[2..5]| == 3 && d[2..5][0] == d[2] && d[2..5][1] == d[3] && d[2..5][2] == d[4];
    assert |d[2..4]| == 2 && d[2..4][0] == d[2] && d[2..4][1] == d[3];
    assert |d[2..3]| == 1 && d[2..3][0] == d[2];
  }

  lemma PrefixThenRest(d: seq<string>, k: nat, qs: seq<string>)
    requires 2 <= k <= |d|
    ensures d[..k] + qs == d[..2] + (d[2..k] + qs)
  {
    assert d[..k] == d[..2] + d[2..k];
  }

  /** `../libgroup/mylib2` */
  const UpMyLib2: string := ".." + "/" + MyLib2
  /** `../../libgroup/mylib` */
  const UpUpMyLib: string := ".." + "/" + ".." + "/" + MyLib
  /** `../../../libgroup/mylib2` */
  const Up3MyLib2: string := ".." + "/" + ".." + "/" + ".." + "/" + MyLib2
  /** `../../../../libs/libgroup/mylib2` */
  const Up4Lib2Root: string := ".." + "/" + ".." + "/" + ".." + "/" + ".." + "/" + Lib2Root

  /** `../libgroup/mylib2` stays inside the library: it reaches `libs/libgroup/mylib/libgroup/mylib2`. */
  lemma UpMyLib2Path(cwd: string)
    ensures ProjectRelative(ProjectPath, Resolve(cwd, Dirname(LibFile), UpMyLib2)) == LibRoot + "/" + MyLib2
  {
    JoinThree("..", "libgroup", "mylib2");
    Regroup(".." + "/", "libgroup", "mylib2");
    assert [".."] + ["libgroup", "mylib2"] == ["..", "libgroup", "mylib2"];
    LibDirSlices();
    assert ["libs", "libgroup", "mylib"] + ["libgroup", "mylib2"] == ["libs", "libgroup", "mylib", "libgroup", "mylib2"];
    LibRelative(cwd, [".."], ["libgroup", "mylib2"], ["libs", "libgroup", "mylib", "libgroup", "mylib2"]);
    JoinFive("libs", "libgroup", "mylib", "libgroup", "mylib2");
    Regroup("libs" + "/", "libgroup", "mylib");
    Regroup(LibRoot + "/", "libgroup", "mylib2");
  }

  /** `../../libgroup/mylib` reaches `libs/libgroup/libgroup/mylib`, which is under no root. */
  lemma UpUpMyLibPath(cwd: string)
    ensures ProjectRelative(ProjectPath, Resolve(cwd, Dirname(LibFile), UpUpMyLib)) == "libs" + "/" + "libgroup" + "/" + MyLib
  {
    JoinFour("..", "..", "libgroup", "mylib");
    Regroup(".." + "/" + ".." + "/", "libgroup", "mylib");
    assert ["..", ".."] + ["libgroup", "mylib"] == ["..", "..", "libgroup", "mylib"];
    LibDirSlices();
    assert ["libs", "libgroup"] + ["libgroup", "mylib"] == ["libs", "libgroup", "libgroup", "mylib"];
    LibRelative(cwd, ["..", ".."], ["libgroup", "mylib"], ["libs", "libgroup", "libgroup", "mylib"]);
    JoinFour("libs", "libgroup", "libgroup", "mylib");
    Regroup("libs" + "/" + "libgroup" + "/", "libgroup", "mylib");
  }

  /** `../../../libgroup/mylib2` reaches the other library. */
  lemma Up3MyLib2Path(cwd: string)
    ensures ProjectRelative(ProjectPath, Resolve(cwd, Dirname(LibFile), Up3MyLib2)) == Lib2Root
  {
    JoinFive("..", "..", "..", "libgroup", "mylib2");
    Regroup(".." + "/" + ".." + "/" + ".." + "/", "libgroup", "mylib2");
    assert ["..", "..", ".."] + ["libgroup", "mylib2"] == ["..", "..", "..", "libgroup", "mylib2"];
    LibDirSlices();
    assert ["libs"] + ["libgroup", "mylib2"] == ["libs", "libgroup", "mylib2"];
    LibRelative(cwd, ["..", "..", ".."], ["libgroup", "mylib2"], ["libs", "libgroup", "mylib2"]);
    JoinThree("libs", "libgroup", "mylib2");
    Regroup("libs" + "/", "libgroup", "mylib2");
  }

  /** `../../../../libs/libgroup/mylib2` reaches the other library too. */
  lemma Up4Lib2RootPath(cwd: string)
    ensures ProjectRelative(ProjectPath, Resolve(cwd, Dirname(LibFile), Up4Lib2Root)) == Lib2Root
  {
    var ups, qs := ["..", "..", "..", ".."], ["libs", "libgroup", "mylib2"];
    JoinAppend(ups, qs);
    JoinFour("..", "..", "..", "..");
    JoinThree("libs", "libgroup", "mylib2");
    LibRelative(cwd, ups, qs, qs);
  }

  // ---------------------------------------------------------------- where relative specifiers point

  /** The lookup over the sorted roots when the first one matches. */
  lemma FirstRootFirst(p: string -> bool)
    requires p(Lib2Root)
    ensures FirstOf(SortedRoots, p) == Some(Lib2Root)
  {
    FirstOfFour(Lib2Root, LibRoot, App2Root, AppRoot, p);
  }

  /** The lookup over the sorted roots when none matches. */
  lemma NoRootFirst(p: string -> bool)
    requires !p(Lib2Root) && !p(LibRoot) && !p(App2Root) && !p(AppRoot)
    ensures FirstOf(SortedRoots, p) == None
  {
    FirstOfFour(Lib2Root, LibRoot, App2Root, AppRoot, p);
  }

  lemma InsideLibMatches()
    ensures !PrefixMatch(LibRoot + "/" + MyLib2)(Lib2Root) && PrefixMatch(LibRoot + "/" + MyLib2)(LibRoot)
  {
    var rel := LibRoot + "/" + MyLib2;
    assert rel[19] == '/';
    NotStartsWithAt(rel, Lib2Root, 19);
    Assoc(LibRoot, "/", MyLib2);
    StartsWithAppend(LibRoot, "/" + MyLib2);
  }

  lemma NowhereMatches()
    ensures var p := PrefixMatch("libs" + "/" + "libgroup" + "/" + MyLib);
      !p(Lib2Root) && !p(LibRoot) && !p(App2Root) && !p(AppRoot)
  {
    NowhereMissesLib2();
    NowhereMissesLib();
    NowhereMissesApp2();
    NowhereMissesApp();
  }

  lemma NowhereMissesLib2() ensures !PrefixMatch("libs" + "/" + "libgroup" + "/" + MyLib)(Lib2Root) {
    var rel := "libs" + "/" + "libgroup" + "/" + MyLib;
    assert rel[14] == 'l' && Lib2Root[14] == 'm';
    NotStartsWithAt(rel, Lib2Root, 14);
  }
  lemma NowhereMissesLib() ensures !PrefixMatch("libs" + "/" + "libgroup" + "/" + MyLib)(LibRoot) {
    var rel := "libs" + "/" + "libgroup" + "/" + MyLib;
    assert rel[14] == 'l' && LibRoot[14] == 'm';
    NotStartsWithAt(rel, LibRoot, 14);
  }
  lemma NowhereMissesApp2() ensures !PrefixMatch("libs" + "/" + "libgroup" + "/" + MyLib)(App2Root) {
    NotStartsWithAt("libs" + "/" + "libgroup" + "/" + MyLib, App2Root, 0);
  }
  lemma NowhereMissesApp() ensures !PrefixMatch("libs" + "/" + "libgroup" + "/" + MyLib)(AppRoot) {
    NotStartsWithAt("libs" + "/" + "libgroup" + "/" + MyLib, AppRoot, 0);
  }

  lemma OtherLibMatches()
    ensures PrefixMatch(Lib2Root)(Lib2Root)
  {
    assert Lib2Root[..|Lib2Root|] == Lib2Root;
  }

  /** `../libgroup/mylib2` from the library file points into the library itself. */
  lemma UpMyLib2Target(cwd: string)
    ensures TargetRoot(SortedRoots, ProjectPath, Scope, cwd, LibFile, UpMyLib2) == LibRoot
  {
    RelativeBranch(SortedRoots, cwd, LibFile, UpMyLib2);
    UpMyLib2Path(cwd);
    InsideLibMatches();
    SecondRootFirst(PrefixMatch(LibRoot + "/" + MyLib2));
  }

  /** `../../libgroup/mylib` from the library file points into no root. */
  lemma UpUpMyLibTarget(cwd: string)
    ensures TargetRoot(SortedRoots, ProjectPath, Scope, cwd, LibFile, UpUpMyLib) == ""
  {
    RelativeBranch(SortedRoots, cwd, LibFile, UpUpMyLib);
    UpUpMyLibPath(cwd);
    NowhereMatches();
    NoRootFirst(PrefixMatch("libs" + "/" + "libgroup" + "/" + MyLib));
  }

  /** `../../../libgroup/mylib2` from the library file points into the other library. */
  lemma Up3MyLib2Target(cwd: string)
    ensures TargetRoot(SortedRoots, ProjectPath, Scope, cwd, LibFile, Up3MyLib2) == Lib2Root
  {
    RelativeBranch(SortedRoots, cwd, LibFile, Up3MyLib2);
    Up3MyLib2Path(cwd);
    OtherLibMatches();
    FirstRootFirst(PrefixMatch(Lib2Root));
  }

  /** `../../../../libs/libgroup/mylib2` from the library file points into the other library. */
  lemma Up4Lib2RootTarget(cwd: string)
    ensures TargetRoot(SortedRoots, ProjectPath, Scope, cwd, LibFile, Up4Lib2Root) == Lib2Root
  {
    RelativeBranch(SortedRoots, cwd, LibFile, Up4Lib2Root);
    Up4Lib2RootPath(cwd);
    OtherLibMatches();
    FirstRootFirst(PrefixMatch(Lib2Root));
  }

  // ---------------------------------------------------------------- shapes

  /** A specifier that starts with a dot is relative, and never uses `@mycompany/.`. */
  lemma DotShape(imp: string)
    requires imp != "" && imp[0] == '.'
    ensures IsRelative(imp) && !StartsWith(imp, ScopePrefix(Scope) + ".")
  {
    assert imp[..1] == ".";
    NotStartsWithAt(imp, ScopePrefix(Scope) + ".", 0);
  }

  /** A scoped package name is neither relative nor a raw path, and uses `@mycompany/.` only if the name starts with a dot. */
  lemma PkgShape(name: string)
    requires name != "" && name[0] != '.'
    ensures !IsRelative(Pkg(name)) && !IsRaw(Pkg(name)) && !StartsWith(Pkg(name), ScopePrefix(Scope) + ".")
  {
    var imp := Pkg(name);
    assert imp[0] == '@' && imp[11] == name[0];
    NotStartsWithAt(imp, ".", 0);
    NotStartsWithAt(imp, "apps/", 0);
    NotStartsWithAt(imp, "libs/", 0);
    NotStartsWithAt(imp, ScopePrefix(Scope) + ".", 11);
  }

  lemma LibRootsNotApps()
    ensures !StartsWith(LibRoot, "apps/") && !StartsWith(Lib2Root, "apps/")
  {
    NotStartsWithAt(LibRoot, "apps/", 0);
    NotStartsWithAt(Lib2Root, "apps/", 0);
  }

  lemma AppRootIsApp()
    ensures StartsWith(AppRoot, "apps/")
  {
    StartsWithAppend("apps/", "myapp");
  }

  /** Linting one import whose verdict is known. */
  lemma Reported(ws: Workspace, cwd: string, fileName: string, args: seq<RuleArgument>, opts: RuleOptions,
                 node: ImportNode, v: Verdict)
    requires ParseOptions(args) == Some(opts)
    requires Judge(Sorted(ws), cwd, fileName, opts, StripQuotes(node.specifierText)) == v
    ensures LintFile(ws, cwd, fileName, args, [node])
         == Failures(if v.Reject? then [RuleFailure(node.start, node.width, Message(v.kind, ws.npmScope))] else [])
  {
    LintOne(ws, cwd, fileName, args, node);
  }

  // ---------------------------------------------------------------- relative imports from the library file

  lemma JudgeUpMyLib2(cwd: string)
    ensures Judge(DefaultSorted, cwd, LibFile, NoOptions, UpMyLib2) == Accept
  {
    LibFileSourceRoot();
    UpMyLib2Target(cwd);
    DotShape(UpMyLib2);
    SameRootPathAccepted(UpMyLib2, NoOptions, Scope, LibNames, LibRoot, LibRoot);
  }

  lemma JudgeUpUpMyLib(cwd: string)
    ensures Judge(DefaultSorted, cwd, LibFile, NoOptions, UpUpMyLib) == Accept
  {
    UpUpMyLibTarget(cwd);
    DotShape(UpUpMyLib);
    UnclassifiedAccepted(UpUpMyLib, NoOptions, Scope, LibNames, SourceRoot(SortedRoots, ProjectPath, LibFile), "");
  }

  lemma JudgeUp3MyLib2(cwd: string)
    ensures Judge(DefaultSorted, cwd, LibFile, NoOptions, Up3MyLib2) == Reject(MissingScope)
  {
    LibFileSourceRoot();
    Up3MyLib2Target(cwd);
    DotShape(Up3MyLib2);
    LibRootsNotApps();
    CrossRootPathRejected(Up3MyLib2, NoOptions, Scope, LibNames, LibRoot, Lib2Root);
  }

  lemma JudgeUp4Lib2Root(cwd: string)
    ensures Judge(DefaultSorted, cwd, LibFile, NoOptions, Up4Lib2Root) == Reject(MissingScope)
  {
    LibFileSourceRoot();
    Up4Lib2RootTarget(cwd);
    DotShape(Up4Lib2Root);
    LibRootsNotApps();
    CrossRootPathRejected(Up4Lib2Root, NoOptions, Scope, LibNames, LibRoot, Lib2Root);
  }

  /** Importing `../libgroup/mylib2` from the library file reports nothing: it stays inside the library. */
  lemma RelativeIntoSameLibrary(cwd: string, start: int, width: int)
    ensures LintFile(Default, cwd, LibFile, [Empty], [Import('"', start, width, UpMyLib2)]) == Failures([])
  {
    DefaultRootsSorted();
    StripQuotesOfImport('"', start, width, UpMyLib2);
    JudgeUpMyLib2(cwd);
    Reported(Default, cwd, LibFile, [Empty], NoOptions, Import('"', start, width, UpMyLib2), Accept);
  }

  /**
   * Importing `../../libgroup/mylib` from the library file reports nothing,
   * because the path it resolves to lies under no root.
   */
  lemma RelativeIntoNoRoot(cwd: string, start: int, width: int)
    ensures LintFile(Default, cwd, LibFile, [Empty], [Import('"', start, width, UpUpMyLib)]) == Failures([])
  {
    DefaultRootsSorted();
    StripQuotesOfImport('"', start, width, UpUpMyLib);
    JudgeUpUpMyLib(cwd);
    Reported(Default, cwd, LibFile, [Empty], NoOptions, Import('"', start, width, UpUpMyLib), Accept);
  }

  /** Importing the other library by a relative path is reported as missing the scope. */
  lemma RelativeIntoOtherLibrary(cwd: string, start: int, width: int)
    ensures LintFile(Default, cwd, LibFile, [Empty], [Import('"', start, width, Up4Lib2Root)])
         == Failures([RuleFailure(start, width, Message(MissingScope, Scope))])
    ensures LintFile(Default, cwd, LibFile, [Empty], [Import('"', start, width, Up3MyLib2)])
         == Failures([RuleFailure(start, width, Message(MissingScope, Scope))])
  {
    DefaultRootsSorted();
    StripQuotesOfImport('"', start, width, Up4Lib2Root);
    StripQuotesOfImport('"', start, width, Up3MyLib2);
    JudgeUp4Lib2Root(cwd);
    JudgeUp3MyLib2(cwd);
    Reported(Default, cwd, LibFile, [Empty], NoOptions, Import('"', start, width, Up4Lib2Root), Reject(MissingScope));
    Reported(Default, cwd, LibFile, [Empty], NoOptions, Import('"', start, width, Up3MyLib2), Reject(MissingScope));
  }

  // ---------------------------------------------------------------- imports from the application file

  /** `{ allow: ['@mycompany/libgroup/mylib/deep'], lazyLoad: ['myliblazy'] }` */
  const InOrderArg: RuleArgument := Value(Array([Pkg(MyLib + "/" + "deep")]), Array(["myliblazy"]))
  const InOrderOptions: RuleOptions := RuleOptions([Pkg(MyLib + "/" + "deep")], ["myliblazy"])
  /** `{ lazyLoad: ['libgroup/mylib'] }` */
  const LazyArg: RuleArgument := Value(NotArray, Array([MyLib]))
  const LazyOptions: RuleOptions := RuleOptions([], [MyLib])

  lemma NoEmptyLibName()
    ensures "" !in LibNames
  {
  }

  /** No library name has `@mycompany/libgroup/mylib` below it. */
  lemma NoDeepMatchOfMyLib()
    ensures forall x :: x in LibNames ==> !DeepMatch(Pkg(MyLib), Scope)(x)
  {
    forall x | x in LibNames ensures !DeepMatch(Pkg(MyLib), Scope)(x) {
      var p := ScopePrefix(Scope) + x + "/";
      assert |x| >= |MyLib|;
      NotStartsWithAt(Pkg(MyLib), p, |p| - 1);
    }
  }

  /** `myliblazy`, which names no library of this workspace, does not match `@mycompany/libgroup/mylib`. */
  lemma NoLazyMatchOfMyLib()
    ensures forall x :: x in ["myliblazy"] ==> !LazyMatch(Pkg(MyLib), Scope)(x)
  {
    var imp := Pkg(MyLib);
    var sp := ScopePrefix(Scope);
    assert imp[11] == 'l';
    assert (sp + "myliblazy" + "/")[11] == 'm' && (sp + "myliblazy")[11] == 'm';
    NotStartsWithAt(imp, sp + "myliblazy" + "/", 11);
  }

  lemma ReachesMyLib()
    ensures ReachesAppCheck(Pkg(MyLib), InOrderOptions, Scope, AppRoot, LibRoot)
  {
    PkgShape(MyLib);
    assert |Pkg(MyLib)| != |Pkg(MyLib + "/" + "deep")|;
  }

  lemma DecideMyLib()
    ensures Decide(Pkg(MyLib), InOrderOptions, Scope, LibNames, AppRoot, LibRoot) == Accept
  {
    ReachesMyLib();
    LibRootsNotApps();
    NoLazyMatchOfMyLib();
    NoDeepMatchOfMyLib();
    NoMatchIsFalsy(InOrderOptions.lazyLoad, LazyMatch(Pkg(MyLib), Scope));
    NoMatchIsFalsy(LibNames, DeepMatch(Pkg(MyLib), Scope));
    LastCheckAcceptsOnlyLibraryNames(Pkg(MyLib), InOrderOptions, Scope, LibNames, AppRoot, LibRoot);
    assert Pkg(MyLib) == ScopePrefix(Scope) + LibNames[0];
  }

  lemma JudgeMyLib(cwd: string)
    ensures Judge(DefaultSorted, cwd, AppFile, InOrderOptions, Pkg(MyLib)) == Accept
  {
    AppFileSourceRoot();
    assert MyLib + "" == MyLib;
    ScopedLibTarget(cwd, AppFile, "");
    DecideMyLib();
  }

  lemma JudgeMyLibDeepAllowed(cwd: string)
    ensures Judge(DefaultSorted, cwd, AppFile, InOrderOptions, Pkg(MyLib + "/" + "deep")) == Accept
  {
    AllowListedAccepted(Pkg(MyLib + "/" + "deep"), InOrderOptions, Scope, LibNames,
                        SourceRoot(SortedRoots, ProjectPath, AppFile),
                        TargetRoot(SortedRoots, ProjectPath, Scope, cwd, AppFile, Pkg(MyLib + "/" + "deep")));
  }

  lemma JudgeUpBlah(cwd: string)
    ensures Judge(DefaultSorted, cwd, AppFile, InOrderOptions, UpBlah) == Accept
  {
    AppFileSourceRoot();
    UpBlahTarget(cwd);
    DotShape(UpBlah);
    SameRootPathAccepted(UpBlah, InOrderOptions, Scope, LibNames, AppRoot, AppRoot);
  }

  /** An import judged acceptable is visited without a failure. */
  lemma AcceptedVisit(ws: Workspace, cwd: string, fileName: string, args: seq<RuleArgument>, opts: RuleOptions,
                      node: ImportNode)
    requires ParseOptions(args) == Some(opts)
    requires Judge(ws, cwd, fileName, opts, StripQuotes(node.specifierText)) == Accept
    ensures Visit(ws, cwd, fileName, args, node) == Some([])
  {
  }

  /** Three imports each visited without a failure give an empty failure list. */
  lemma ThreeAccepted(ws: Workspace, cwd: string, fileName: string, args: seq<RuleArgument>,
                      n1: ImportNode, n2: ImportNode, n3: ImportNode)
    requires Visit(ws, cwd, fileName, args, n1) == Some([])
    requires Visit(ws, cwd, fileName, args, n2) == Some([])
    requires Visit(ws, cwd, fileName, args, n3) == Some([])
    ensures LintImports(ws, cwd, fileName, args, [n1, n2, n3]) == Failures([])
  {
    ThreeNodes(n1, n2, n3);
    OneMoreAccepted(ws, cwd, fileName, args, [], n1);
    OneMoreAccepted(ws, cwd, fileName, args, [] + [n1], n2);
    OneMoreAccepted(ws, cwd, fileName, args, [] + [n1] + [n2], n3);
  }

  lemma ThreeNodes<T>(n1: T, n2: T, n3: T)
    ensures [] + [n1] + [n2] + [n3] == [n1, n2, n3]
  {
  }

  lemma OneMoreAccepted(ws: Workspace, cwd: string, fileName: string, args: seq<RuleArgument>,
                        init: seq<ImportNode>, last: ImportNode)
    requires LintImports(ws, cwd, fileName, args, init) == Failures([])
    requires Visit(ws, cwd, fileName, args, last) == Some([])
    ensures LintImports(ws, cwd, fileName, args, init + [last]) == Failures([])
  {
    var nodes := init + [last];
    assert nodes[..|nodes| - 1] == init && nodes[|nodes| - 1] == last;
  }

  /**
   * A file that imports a library by its scoped name, an allow-listed deep
   * path and a relative path inside its own application gets no failures.
   */
  lemma EverythingInOrder(cwd: string, s1: int, w1: int, s2: int, w2: int, s3: int, w3: int)
    ensures LintFile(Default, cwd, AppFile, [InOrderArg],
                     [Import('\'', s1, w1, Pkg(MyLib)), Import('\'', s2, w2, Pkg(MyLib + "/" + "deep")),
                      Import('\'', s3, w3, UpBlah)]) == Failures([])
  {
    DefaultRootsSorted();
    StripQuotesOfImport('\'', s1, w1, Pkg(MyLib));
    StripQuotesOfImport('\'', s2, w2, Pkg(MyLib + "/" + "deep"));
    StripQuotesOfImport('\'', s3, w3, UpBlah);
    JudgeMyLib(cwd);
    JudgeMyLibDeepAllowed(cwd);
    JudgeUpBlah(cwd);
    assert ParseOptions([InOrderArg]) == Some(InOrderOptions);
    AcceptedVisit(DefaultSorted, cwd, AppFile, [InOrderArg], InOrderOptions, Import('\'', s1, w1, Pkg(MyLib)));
    AcceptedVisit(DefaultSorted, cwd, AppFile, [InOrderArg], InOrderOptions,
                  Import('\'', s2, w2, Pkg(MyLib + "/" + "deep")));
    AcceptedVisit(DefaultSorted, cwd, AppFile, [InOrderArg], InOrderOptions, Import('\'', s3, w3, UpBlah));
    ThreeAccepted(DefaultSorted, cwd, AppFile, [InOrderArg],
                  Import('\'', s1, w1, Pkg(MyLib)), Import('\'', s2, w2, Pkg(MyLib + "/" + "deep")),
                  Import('\'', s3, w3, UpBlah));
  }

  // ---------------------------------------------------------------- a raw path

  lemma LibRootShape()
    ensures !IsRelative(LibRoot) && !StartsWith(LibRoot, ScopePrefix(Scope)) && IsRaw(LibRoot)
  {
    NotStartsWithAt(LibRoot, ".", 0);
    NotStartsWithAt(LibRoot, ScopePrefix(Scope), 0);
    assert LibRoot == "libs/" + MyLib;
    StartsWithAppend("libs/", MyLib);
  }

  lemma RawLibMatches()
    ensures !RawMatch(LibRoot)(Lib2Root) && RawMatch(LibRoot)(LibRoot)
  {
    assert |LibRoot| < |Lib2Root|;
  }

  /** `libs/libgroup/mylib` is looked up as a raw path and lands on its own root. */
  lemma RawLibTarget(cwd: string, fileName: string)
    ensures TargetRoot(SortedRoots, ProjectPath, Scope, cwd, fileName, LibRoot) == LibRoot
  {
    LibRootShape();
    RawLibMatches();
    SecondRootFirst(RawMatch(LibRoot));
  }

  lemma JudgeRawLib(cwd: string)
    ensures Judge(DefaultSorted, cwd, AppFile, NoOptions, LibRoot) == Reject(MissingScope)
  {
    AppFileSourceRoot();
    RawLibTarget(cwd, AppFile);
    LibRootShape();
    LibRootsNotApps();
    assert |AppRoot| != |LibRoot|;
    CrossRootPathRejected(LibRoot, NoOptions, Scope, LibNames, AppRoot, LibRoot);
  }

  /** Importing another project by its workspace path is reported as a missing scope. */
  lemma RawPathRejected(cwd: string, start: int, width: int)
    ensures LintFile(Default, cwd, AppFile, [Empty], [Import('\'', start, width, LibRoot)])
         == Failures([RuleFailure(start, width, Message(MissingScope, Scope))])
  {
    DefaultRootsSorted();
    StripQuotesOfImport('\'', start, width, LibRoot);
    JudgeRawLib(cwd);
    Reported(Default, cwd, AppFile, [Empty], NoOptions, Import('\'', start, width, LibRoot), Reject(MissingScope));
  }

  // ---------------------------------------------------------------- a deep import

  const DeepBlah: string := MyLib + "/" + "blah"

  lemma DeepBlahPrefix()
    ensures StartsWith(Pkg(DeepBlah), ScopePrefix(Scope) + MyLib + "/")
  {
    var p := ScopePrefix(Scope) + MyLib + "/";
    Assoc(ScopePrefix(Scope), MyLib + "/", "blah");
    Assoc(ScopePrefix(Scope), MyLib, "/");
    StartsWithAppend(p, "blah");
  }

  lemma DecideDeepBlah()
    ensures Decide(Pkg(DeepBlah), NoOptions, Scope, LibNames, AppRoot, LibRoot) == Reject(DeepImport)
  {
    PkgShape(DeepBlah);
    LibRootsNotApps();
    NoEmptyLibName();
    DeepBlahPrefix();
    NoMatchIsFalsy(NoOptions.lazyLoad, LazyMatch(Pkg(DeepBlah), Scope));
    DeepImportRejected(Pkg(DeepBlah), NoOptions, Scope, LibNames, AppRoot, LibRoot, MyLib);
  }

  lemma JudgeDeepBlah(cwd: string)
    ensures Judge(DefaultSorted, cwd, AppFile, NoOptions, Pkg(DeepBlah)) == Reject(DeepImport)
  {
    AppFileSourceRoot();
    Assoc(MyLib, "/", "blah");
    ScopedLibTarget(cwd, AppFile, "/" + "blah");
    DecideDeepBlah();
  }

  /** Importing a file inside a library instead of its entry point is reported as a deep import. */
  lemma DeepImportReported(cwd: string, start: int, width: int)
    ensures LintFile(Default, cwd, AppFile, [Empty], [Import('\'', start, width, Pkg(DeepBlah))])
         == Failures([RuleFailure(start, width, Message(DeepImport, Scope))])
  {
    DefaultRootsSorted();
    StripQuotesOfImport('\'', start, width, Pkg(DeepBlah));
    JudgeDeepBlah(cwd);
    Reported(Default, cwd, AppFile, [Empty], NoOptions, Import('\'', start, width, Pkg(DeepBlah)),
             Reject(DeepImport));
  }

  // ---------------------------------------------------------------- a lazy-loaded library

  lemma DecideLazyMyLib()
    ensures Decide(Pkg(MyLib), LazyOptions, Scope, LibNames, AppRoot, LibRoot) == Reject(LazyLoadedImport)
  {
    PkgShape(MyLib);
    LibRootsNotApps();
    LazyLoadedRejected(Pkg(MyLib), LazyOptions, Scope, LibNames, AppRoot, LibRoot, MyLib);
  }

  lemma JudgeLazyMyLib(cwd: string)
    ensures Judge(DefaultSorted, cwd, AppFile, LazyOptions, Pkg(MyLib)) == Reject(LazyLoadedImport)
  {
    AppFileSourceRoot();
    assert MyLib + "" == MyLib;
    ScopedLibTarget(cwd, AppFile, "");
    DecideLazyMyLib();
  }

  /** A library listed under `lazyLoad` may not be imported statically. */
  lemma LazyLoadedReported(cwd: string, start: int, width: int)
    ensures LintFile(Default, cwd, AppFile, [LazyArg], [Import('\'', start, width, Pkg(MyLib))])
         == Failures([RuleFailure(start, width, Message(LazyLoadedImport, Scope))])
  {
    DefaultRootsSorted();
    StripQuotesOfImport('\'', start, width, Pkg(MyLib));
    JudgeLazyMyLib(cwd);
    assert ParseOptions([LazyArg]) == Some(LazyOptions);
    Reported(Default, cwd, AppFile, [LazyArg], LazyOptions, Import('\'', start, width, Pkg(MyLib)),
             Reject(LazyLoadedImport));
  }

  // ---------------------------------------------------------------- an application

  lemma DecideApp()
    ensures Decide(Pkg("myapp"), LazyOptions, Scope, LibNames, AppRoot, AppRoot) == Reject(AppImport)
  {
    PkgShape("myapp");
    AppRootIsApp();
    AppTargetRejected(Pkg("myapp"), LazyOptions, Scope, LibNames, AppRoot, AppRoot);
  }

  lemma JudgeApp(cwd: string)
    ensures Judge(DefaultSorted, cwd, AppFile, LazyOptions, Pkg("myapp")) == Reject(AppImport)
  {
    AppFileSourceRoot();
    ScopedAppTarget(cwd, AppFile);
    DecideApp();
  }

  /**
   * An application may not be imported, not even by a file of that same
   * application: the app check does not compare the two roots.
   */
  lemma AppImportReported(cwd: string, start: int, width: int)
    ensures LintFile(Default, cwd, AppFile, [LazyArg], [Import('\'', start, width, Pkg("myapp"))])
         == Failures([RuleFailure(start, width, Message(AppImport, Scope))])
  {
    DefaultRootsSorted();
    StripQuotesOfImport('\'', start, width, Pkg("myapp"));
    JudgeApp(cwd);
    assert ParseOptions([LazyArg]) == Some(LazyOptions);
    Reported(Default, cwd, AppFile, [LazyArg], LazyOptions, Import('\'', start, width, Pkg("myapp")),
             Reject(AppImport));
  }

  // ---------------------------------------------------------------- libraries whose names share a prefix

  const RepDashboard: string := "reporting-dashboard-ui"
  const RepOther: string := "reporting-other"
  const Rep: string := "reporting"
  /** The reporting workspace, with its names and roots in either order. */
  const ReportingWs: Workspace :=
    Workspace(ProjectPath, Scope, [Rep, RepDashboard], [], ["libs" + "/" + Rep, "libs" + "/" + RepOther, "libs" + "/" + RepDashboard])
  const ReportingWsReversed: Workspace :=
    Workspace(ProjectPath, Scope, [RepDashboard, Rep], [], ["libs" + "/" + RepDashboard, "libs" + "/" + RepOther, "libs" + "/" + Rep])

  /** Whatever order a list of library roots is given in, the application file lies outside all of them. */
  lemma AppFileOutsideLibs(ws: Workspace)
    requires ws.projectPath == ProjectPath
    requires forall x :: x in ws.roots ==> x != "" && x[0] == 'l'
    ensures SourceRoot(Sorted(ws).roots, ProjectPath, AppFile) == ""
  {
    AppFileRelative();
    var rel := AppRoot + AppTail;
    assert rel[0] == 'a';
    SortedKeepsRoots(ws);
    forall x | x in Sorted(ws).roots && x != "" ensures !StartsWith(rel, x) {
      NotStartsWithAt(rel, x, 0);
    }
  }

  lemma SortedKeepsRoots(ws: Workspace)
    ensures forall x :: x in Sorted(ws).roots ==> x in ws.roots
  {
    forall x | x in Sorted(ws).roots ensures x in ws.roots {
      assert x in multiset(Sorted(ws).roots);
    }
  }

  /** A scoped import from a file outside every root is accepted: its source root is "". */
  lemma OutsideImportAccepted(ws: Workspace, cwd: string, opts: RuleOptions, name: string)
    requires ws.projectPath == ProjectPath && ws.npmScope == Scope
    requires forall x :: x in ws.roots ==> x != "" && x[0] == 'l'
    requires name != "" && name[0] != '.'
    ensures Judge(Sorted(ws), cwd, AppFile, opts, Pkg(name)) == Accept
  {
    AppFileOutsideLibs(ws);
    PkgShape(name);
    UnclassifiedAccepted(Pkg(name), opts, Scope, ws.libNames, "",
                         TargetRoot(Sorted(ws).roots, ProjectPath, Scope, cwd, AppFile, Pkg(name)));
  }

  lemma ReportingAccepted(ws: Workspace, cwd: string, s1: int, w1: int, s2: int, w2: int, s3: int, w3: int)
    requires ws.projectPath == ProjectPath && ws.npmScope == Scope
    requires forall x :: x in ws.roots ==> x != "" && x[0] == 'l'
    ensures LintFile(ws, cwd, AppFile, [Empty],
                     [Import('\'', s1, w1, Pkg(RepDashboard)), Import('\'', s2, w2, Pkg(RepOther)),
                      Import('\'', s3, w3, Pkg(Rep))]) == Failures([])
  {
    assert ParseOptions([Empty]) == Some(NoOptions);
    StripQuotesOfImport('\'', s1, w1, Pkg(RepDashboard));
    StripQuotesOfImport('\'', s2, w2, Pkg(RepOther));
    StripQuotesOfImport('\'', s3, w3, Pkg(Rep));
    OutsideImportAccepted(ws, cwd, NoOptions, RepDashboard);
    OutsideImportAccepted(ws, cwd, NoOptions, RepOther);
    OutsideImportAccepted(ws, cwd, NoOptions, Rep);
    AcceptedVisit(Sorted(ws), cwd, AppFile, [Empty], NoOptions, Import('\'', s1, w1, Pkg(RepDashboard)));
    AcceptedVisit(Sorted(ws), cwd, AppFile, [Empty], NoOptions, Import('\'', s2, w2, Pkg(RepOther)));
    AcceptedVisit(Sorted(ws), cwd, AppFile, [Empty], NoOptions, Import('\'', s3, w3, Pkg(Rep)));
    ThreeAccepted(Sorted(ws), cwd, AppFile, [Empty],
                  Import('\'', s1, w1, Pkg(RepDashboard)), Import('\'', s2, w2, Pkg(RepOther)),
                  Import('\'', s3, w3, Pkg(Rep)));
  }

  /** Three libraries whose names share a prefix, listed in either order, give no failures. */
  lemma SharedPrefixNoFailures(cwd: string, s1: int, w1: int, s2: int, w2: int, s3: int, w3: int)
    ensures LintFile(ReportingWs, cwd, AppFile, [Empty],
                     [Import('\'', s1, w1, Pkg(RepDashboard)), Import('\'', s2, w2, Pkg(RepOther)),
                      Import('\'', s3, w3, Pkg(Rep))]) == Failures([])
    ensures LintFile(ReportingWsReversed, cwd, AppFile, [Empty],
                     [Import('\'', s1, w1, Pkg(RepDashboard)), Import('\'', s2, w2, Pkg(RepOther)),
                      Import('\'', s3, w3, Pkg(Rep))]) == Failures([])
  {
    ReportingRootsAreLibs();
    ReversedRootsAreLibs();
    ReportingAccepted(ReportingWs, cwd, s1, w1, s2, w2, s3, w3);
    ReportingAccepted(ReportingWsReversed, cwd, s1, w1, s2, w2, s3, w3);
  }

  lemma RepDashboardAt20()
    ensures Pkg(RepDashboard)[20] == '-' && (ScopePrefix(Scope) + Rep + "/")[20] == '/'
  {
    assert Pkg(RepDashboard)[20] == RepDashboard[9];
    assert (ScopePrefix(Scope) + Rep + "/")[20] == "/"[0];
  }

  lemma NoDeepMatchOfRepDashboard()
    ensures forall x :: x in [Rep, RepDashboard] ==> !DeepMatch(Pkg(RepDashboard), Scope)(x)
  {
    var imp := Pkg(RepDashboard);
    RepDashboardAt20();
    NotStartsWithAt(imp, ScopePrefix(Scope) + Rep + "/", 20);
    NotStartsWithAt(imp, ScopePrefix(Scope) + RepDashboard + "/", |imp|);
  }

  lemma ReportingRootsAreLibs()
    ensures forall x :: x in ReportingWs.roots ==> x != "" && x[0] == 'l'
  {
  }

  lemma ReversedRootsAreLibs()
    ensures forall x :: x in ReportingWsReversed.roots ==> x != "" && x[0] == 'l'
  {
  }

  /**
   * Between two roots, the deep-import test does not take `reporting` for a
   * directory above `reporting-dashboard-ui`: the name must be followed by `/`.
   */
  lemma PrefixIsNotDeep()
    ensures Decide(Pkg(RepDashboard), NoOptions, Scope, [Rep, RepDashboard], AppRoot, "libs" + "/" + RepDashboard) == Accept
  {
    var imp := Pkg(RepDashboard);
    PkgShape(RepDashboard);
    NotStartsWithAt("libs" + "/" + RepDashboard, "apps/", 0);
    NoDeepMatchOfRepDashboard();
    NoMatchIsFalsy([Rep, RepDashboard], DeepMatch(imp, Scope));
    LastCheckAcceptsOnlyLibraryNames(imp, NoOptions, Scope, [Rep, RepDashboard], AppRoot, "libs" + "/" + RepDashboard);
    assert imp == ScopePrefix(Scope) + [Rep, RepDashboard][1];
  }

  // ---------------------------------------------------------------- a library under an application's name

  const UnderApp: string := "myapp" + "/" + "mylib"
  const UnderAppRoot: string := "libs" + "/" + UnderApp
  /** `{ lazyLoad: [] }` */
  const NoLazyArg: RuleArgument := Value(NotArray, Array([]))
  /** The workspace with `libs/myapp/mylib` and `apps/myapp`. */
  const UnderAppWs: Workspace := Workspace(ProjectPath, Scope, [UnderApp], ["myapp"], [UnderAppRoot, AppRoot])

  lemma UnderAppRootsSorted()
    ensures Sorted(UnderAppWs) == UnderAppWs
  {
    assert |UnderAppRoot| == 16 && |AppRoot| == 10;
    SortSortedIdentity(UnderAppWs.roots);
  }

  lemma UnderAppSourceRoot()
    ensures SourceRoot([UnderAppRoot, AppRoot], ProjectPath, AppFile) == AppRoot
  {
    AppFileRelative();
    AppFileMatches();
    var rel := AppRoot + AppTail;
    NotStartsWithAt(rel, UnderAppRoot, 0);
    FirstOfCons(UnderAppRoot, [AppRoot], PrefixMatch(rel));
    FirstOfCons(AppRoot, [], PrefixMatch(rel));
  }

  lemma UnderAppMatches()
    ensures ScopedMatch("/" + UnderApp)(UnderAppRoot) && ScopedMatch("/" + UnderApp)(AppRoot)
  {
    StrippedRootHits("/" + UnderApp, "libs", UnderApp, "");
    UnderAppHitsApp();
  }

  lemma UnderAppHitsApp()
    ensures ScopedMatch("/" + UnderApp)(AppRoot)
  {
    Assoc("/", "myapp" + "/", "mylib");
    Assoc("/", "myapp", "/");
    Assoc("/" + "myapp", "/", "mylib");
    StrippedRootHits("/" + UnderApp, "apps", "myapp", "/" + "mylib");
  }

  /** With the longer root first, `@mycompany/myapp/mylib` lands on the library. */
  lemma UnderAppTarget(cwd: string)
    ensures TargetRoot([UnderAppRoot, AppRoot], ProjectPath, Scope, cwd, AppFile, Pkg(UnderApp)) == UnderAppRoot
  {
    ScopedBranch([UnderAppRoot, AppRoot], cwd, AppFile, UnderApp);
    UnderAppMatches();
    FirstOfCons(UnderAppRoot, [AppRoot], ScopedMatch("/" + UnderApp));
  }

  /**
   * Whichever order the workspace lists the two roots in, the walker's sorted
   * copy sends `@mycompany/myapp/mylib` to the library: the two matching
   * roots differ in length.
   */
  lemma UnderAppTargetEitherOrder(cwd: string)
    ensures TargetRoot(SortLongestFirst([UnderAppRoot, AppRoot]), ProjectPath, Scope, cwd, AppFile, Pkg(UnderApp))
         == UnderAppRoot
    ensures TargetRoot(SortLongestFirst([AppRoot, UnderAppRoot]), ProjectPath, Scope, cwd, AppFile, Pkg(UnderApp))
         == UnderAppRoot
  {
    UnderAppRootsSorted();
    UnderAppTarget(cwd);
    StartsWithAppend(ScopePrefix(Scope), UnderApp);
    UnderAppRootsOfTwoLengths();
    ScopedTargetIgnoresOrder([AppRoot, UnderAppRoot], [UnderAppRoot, AppRoot], ProjectPath, Scope, cwd, AppFile,
                             Pkg(UnderApp));
  }

  lemma UnderAppRootsOfTwoLengths()
    ensures multiset([AppRoot, UnderAppRoot]) == multiset([UnderAppRoot, AppRoot])
    ensures forall x, y :: x in [AppRoot, UnderAppRoot] && y in [AppRoot, UnderAppRoot] && |x| == |y| ==> x == y
  {
    assert |UnderAppRoot| == 16 && |AppRoot| == 10;
  }

  /** With the roots in the other order the same lookup lands on the application: line 59's sort decides. */
  lemma UnsortedUnderAppTarget(cwd: string)
    ensures TargetRoot([AppRoot, UnderAppRoot], ProjectPath, Scope, cwd, AppFile, Pkg(UnderApp)) == AppRoot
  {
    ScopedBranch([AppRoot, UnderAppRoot], cwd, AppFile, UnderApp);
    UnderAppMatches();
    FirstOfCons(AppRoot, [UnderAppRoot], ScopedMatch("/" + UnderApp));
  }

  lemma DecideUnderApp()
    ensures Decide(Pkg(UnderApp), NoOptions, Scope, [UnderApp], AppRoot, UnderAppRoot) == Accept
  {
    var imp := Pkg(UnderApp);
    PkgShape(UnderApp);
    NotStartsWithAt(UnderAppRoot, "apps/", 0);
    NotStartsWithAt(imp, ScopePrefix(Scope) + UnderApp + "/", |imp|);
    assert |AppRoot| != |UnderAppRoot|;
    NoMatchIsFalsy([UnderApp], DeepMatch(imp, Scope));
    LastCheckAcceptsOnlyLibraryNames(imp, NoOptions, Scope, [UnderApp], AppRoot, UnderAppRoot);
    assert imp == ScopePrefix(Scope) + [UnderApp][0];
  }

  lemma JudgeUnderApp(cwd: string)
    ensures Judge(UnderAppWs, cwd, AppFile, NoOptions, Pkg(UnderApp)) == Accept
  {
    UnderAppSourceRoot();
    UnderAppTarget(cwd);
    DecideUnderApp();
  }

  /** A library whose name starts with an application's name is not taken for that application. */
  lemma LibUnderAppNameAccepted(cwd: string, start: int, width: int)
    ensures LintFile(UnderAppWs, cwd, AppFile, [NoLazyArg], [Import('\'', start, width, Pkg(UnderApp))])
         == Failures([])
  {
    UnderAppRootsSorted();
    StripQuotesOfImport('\'', start, width, Pkg(UnderApp));
    JudgeUnderApp(cwd);
    assert ParseOptions([NoLazyArg]) == Some(NoOptions);
    Reported(UnderAppWs, cwd, AppFile, [NoLazyArg], NoOptions, Import('\'', start, width, Pkg(UnderApp)), Accept);
  }
}
