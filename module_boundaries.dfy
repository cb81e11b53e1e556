/**
 * The walker that applies the rule to one source file: built from the
 * workspace data (sorting the roots longest first), it visits the file's
 * import declarations in order and appends at most one failure per import to
 * its failure list.
 */
module ModuleBoundaries {
  import opened Wrappers
  import opened JsStrings
  import opened RootLookup
  import opened Classifier
  import opened BoundaryRule

  /** An import declaration: its position and the source text of its module specifier, quotes included. */
  datatype ImportNode = ImportNode(start: int, width: int, specifierText: string)

  /** A recorded failure: the import declaration's position and the message. */
  datatype RuleFailure = RuleFailure(start: int, width: int, message: string)

  /** The failures of one file, or the TypeError thrown when the rule's first argument is missing. */
  datatype LintResult = Failures(failures: seq<RuleFailure>) | Threw

  /** The workspace data the rule is constructed with. */
  datatype Workspace = Workspace(projectPath: string, npmScope: string, libNames: seq<string>,
                                 appNames: seq<string>, roots: seq<string>)

  /** The workspace as the walker holds it: the same data with the roots sorted longest first. */
  function Sorted(ws: Workspace): (r: Workspace)
    ensures LongestFirst(r.roots) && multiset(r.roots) == multiset(ws.roots)
    ensures r.projectPath == ws.projectPath && r.npmScope == ws.npmScope
    ensures r.libNames == ws.libNames && r.appNames == ws.appNames
  {
    ws.(roots := SortLongestFirst(ws.roots))
  }

  /** Line 63: `text.substring(1, text.length - 1)`, the specifier without its quotes. */
  function StripQuotes(text: string): (r: string)
    ensures |text| >= 2 ==> r == text[1..|text| - 1]
    ensures |text| <= 1 ==> r == text
  {
    Substring(text, 1, |text| - 1)
  }

  /** The verdict on one specifier, with the roots as the walker holds them. */
  function Judge(ws: Workspace, cwd: string, fileName: string, opts: RuleOptions, imp: string): Verdict {
    Decide(imp, opts, ws.npmScope, ws.libNames,
           SourceRoot(ws.roots, ws.projectPath, fileName),
           TargetRoot(ws.roots, ws.projectPath, ws.npmScope, cwd, fileName, imp))
  }

  /**
   * What visiting one import declaration adds to the failure list: nothing
   * when the import is accepted, one failure at the node when it is rejected;
   * `None` when reading the options throws.
   */
  function Visit(ws: Workspace, cwd: string, fileName: string, args: seq<RuleArgument>, node: ImportNode)
    : (r: Option<seq<RuleFailure>>)
    ensures r.None? <==> ParseOptions(args).None?
    ensures r.Some? ==> |r.value| <= 1
    ensures r.Some? ==>
      var v := Judge(ws, cwd, fileName, ParseOptions(args).value, StripQuotes(node.specifierText));
      && (r.value == [] <==> v == Accept)
      && (v.Reject? ==> r.value == [RuleFailure(node.start, node.width, Message(v.kind, ws.npmScope))])
  {
    match ParseOptions(args)
    case None => None
    case Some(opts) =>
      var v := Judge(ws, cwd, fileName, opts, StripQuotes(node.specifierText));
      Some(if v.Reject? then [RuleFailure(node.start, node.width, Message(v.kind, ws.npmScope))] else [])
  }

  /** The failure list after visiting `nodes` in order, starting from an empty one. */
  function LintImports(ws: Workspace, cwd: string, fileName: string, args: seq<RuleArgument>,
                       nodes: seq<ImportNode>): LintResult
    decreases |nodes|
  {
    if nodes == [] then Failures([])
    else
      match LintImports(ws, cwd, fileName, args, nodes[..|nodes| - 1])
      case Threw => Threw
      case Failures(fs) =>
        match Visit(ws, cwd, fileName, args, nodes[|nodes| - 1])
        case None => Threw
        case Some(f) => Failures(fs + f)
  }

  /** `Rule.apply` on a file: a fresh walker over the workspace data visits all of its imports. */
  function LintFile(ws: Workspace, cwd: string, fileName: string, args: seq<RuleArgument>,
                    nodes: seq<ImportNode>): LintResult
  {
    LintImports(Sorted(ws), cwd, fileName, args, nodes)
  }

  class EnforceModuleBoundariesWalker {
    const fileName: string
    const ruleArguments: seq<RuleArgument>
    /** The process's working directory, which `path.resolve` falls back on. */
    const cwd: string
    const projectPath: string
    const npmScope: string
    const libNames: seq<string>
    const appNames: seq<string>
    const roots: seq<string>
    var failures: seq<RuleFailure>

    /** The walker's workspace data. */
    function Config(): Workspace {
      Workspace(projectPath, npmScope, libNames, appNames, roots)
    }

    /** Keeps its own sorted copy of the roots (line 59). */
    constructor (fileName: string, ruleArguments: seq<RuleArgument>, cwd: string, ws: Workspace)
      ensures Config() == Sorted(ws)
      ensures this.fileName == fileName && this.ruleArguments == ruleArguments && this.cwd == cwd
      ensures failures == []
    {
      this.fileName := fileName;
      this.ruleArguments := ruleArguments;
      this.cwd := cwd;
      this.projectPath := ws.projectPath;
      this.npmScope := ws.npmScope;
      this.libNames := ws.libNames;
      this.appNames := ws.appNames;
      this.roots := SortLongestFirst(ws.roots);
      this.failures := [];
    }

    /**
     * `visitImportDeclaration`: decides on the import and appends its failure,
     * if any; `threw` reports the TypeError of reading a missing first argument.
     */
    method VisitImportDeclaration(node: ImportNode) returns (threw: bool)
      modifies this
      ensures threw <==> Visit(Config(), cwd, fileName, ruleArguments, node).None?
      ensures !threw ==> failures == old(failures) + Visit(Config(), cwd, fileName, ruleArguments, node).value
      ensures threw ==> failures == old(failures)
    {
      var imp := StripQuotes(node.specifierText);
      var parsed := ParseOptions(ruleArguments);
      if parsed.None? {
        return true;
      }
      var sourceRoot := SourceRoot(roots, projectPath, fileName);
      var targetRoot := TargetRoot(roots, projectPath, npmScope, cwd, fileName, imp);
      var verdict := Decide(imp, parsed.value, npmScope, libNames, sourceRoot, targetRoot);
      if verdict.Reject? {
        failures := failures + [RuleFailure(node.start, node.width, Message(verdict.kind, npmScope))];
      }
      threw := false;
    }
  }

  /** Runs a fresh walker over the file's import declarations, in order, and returns its failures. */
  method Apply(ws: Workspace, cwd: string, fileName: string, args: seq<RuleArgument>, nodes: seq<ImportNode>)
    returns (r: LintResult)
    ensures r == LintFile(ws, cwd, fileName, args, nodes)
  {
    var walker := new EnforceModuleBoundariesWalker(fileName, args, cwd, ws);
    var i := 0;
    while i < |nodes|
      invariant 0 <= i <= |nodes|
      invariant LintImports(Sorted(ws), cwd, fileName, args, nodes[..i]) == Failures(walker.failures)
    {
      assert nodes[..i + 1][..i] == nodes[..i];
      var threw := walker.VisitImportDeclaration(nodes[i]);
      if threw {
        return Threw;
      }
      i := i + 1;
    }
    assert nodes[..i] == nodes;
    return Failures(walker.failures);
  }

  // ---------------------------------------------------------------- lemmas

  /** The specifier of a quoted string literal is its text between the quotes. */
  lemma StripQuotesOfLiteral(quote: char, s: string)
    ensures StripQuotes([quote] + s + [quote]) == s
  {
    assert ([quote] + s + [quote])[1..|s| + 1] == s;
  }

  /** Every import yields at most one failure. */
  lemma {:induction false} AtMostOneFailurePerImport(ws: Workspace, cwd: string, fileName: string,
                                                     args: seq<RuleArgument>, nodes: seq<ImportNode>)
    ensures LintImports(ws, cwd, fileName, args, nodes).Failures? ==>
      |LintImports(ws, cwd, fileName, args, nodes).failures| <= |nodes|
    decreases |nodes|
  {
    if nodes != [] {
      AtMostOneFailurePerImport(ws, cwd, fileName, args, nodes[..|nodes| - 1]);
    }
  }

  /** The walk throws exactly when there is an import to visit and the first argument is missing. */
  lemma {:induction false} ThrowsIffOptionsMissing(ws: Workspace, cwd: string, fileName: string,
                                                   args: seq<RuleArgument>, nodes: seq<ImportNode>)
    ensures LintImports(ws, cwd, fileName, args, nodes).Threw? <==> nodes != [] && ParseOptions(args).None?
    decreases |nodes|
  {
    if nodes != [] {
      ThrowsIffOptionsMissing(ws, cwd, fileName, args, nodes[..|nodes| - 1]);
    }
  }

  /** A file has no failures exactly when each of its imports is accepted. */
  lemma {:induction false} NoFailuresIffAllAccepted(ws: Workspace, cwd: string, fileName: string,
                                                    args: seq<RuleArgument>, nodes: seq<ImportNode>)
    requires ParseOptions(args).Some?
    ensures LintImports(ws, cwd, fileName, args, nodes) == Failures([]) <==>
      forall i :: 0 <= i < |nodes| ==> Visit(ws, cwd, fileName, args, nodes[i]) == Some([])
    decreases |nodes|
  {
    if nodes != [] {
      var init, last := nodes[..|nodes| - 1], nodes[|nodes| - 1];
      assert nodes == init + [last];
      NoFailuresIffAllAccepted(ws, cwd, fileName, args, init);
      ThrowsIffOptionsMissing(ws, cwd, fileName, args, init);
      NoFailuresStep(ws, cwd, fileName, args, init, last);
    }
  }

  /** The step of the induction above: one more import keeps the list empty exactly when it is accepted. */
  lemma NoFailuresStep(ws: Workspace, cwd: string, fileName: string, args: seq<RuleArgument>,
                       init: seq<ImportNode>, last: ImportNode)
    requires ParseOptions(args).Some?
    requires LintImports(ws, cwd, fileName, args, init).Failures?
    requires LintImports(ws, cwd, fileName, args, init) == Failures([]) <==>
      forall i :: 0 <= i < |init| ==> Visit(ws, cwd, fileName, args, init[i]) == Some([])
    ensures LintImports(ws, cwd, fileName, args, init + [last]) == Failures([]) <==>
      forall i :: 0 <= i < |init + [last]| ==> Visit(ws, cwd, fileName, args, (init + [last])[i]) == Some([])
  {
    var nodes := init + [last];
    assert nodes[..|nodes| - 1] == init;
    var fs := LintImports(ws, cwd, fileName, args, init).failures;
    var f := Visit(ws, cwd, fileName, args, last).value;
    assert LintImports(ws, cwd, fileName, args, nodes) == Failures(fs + f);
    assert fs + f == [] <==> fs == [] && f == [];
    AcceptedSnoc(ws, cwd, fileName, args, init, last);
  }

  /** Every import of `init + [last]` is accepted exactly when those of `init` and `last` are. */
  lemma AcceptedSnoc(ws: Workspace, cwd: string, fileName: string, args: seq<RuleArgument>,
                     init: seq<ImportNode>, last: ImportNode)
    ensures (forall i :: 0 <= i < |init + [last]| ==> Visit(ws, cwd, fileName, args, (init + [last])[i]) == Some([]))
        <==> (forall i :: 0 <= i < |init| ==> Visit(ws, cwd, fileName, args, init[i]) == Some([]))
             && Visit(ws, cwd, fileName, args, last) == Some([])
  {
    var nodes := init + [last];
    assert forall i :: 0 <= i < |init| ==> nodes[i] == init[i];
    assert nodes[|init|] == last;
  }
}
