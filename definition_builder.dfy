/**
 * `DefinitionBuilder`: the projection of the position-to-symbol engine that
 * answers "go to definition". Every declaration hook returns the
 * declaration's own source location; includes and modules are resolved to a
 * file pathname and answered with the zero-width location at the start of
 * that file, but only when the compiler actually read that file.
 *
 * The file system and the compiler configuration are given: `FileExists`,
 * `FullPath` and `pkgdef_split` are functions of an `IncludeConfig`, and so
 * are `compilercfg.PolScriptRoot`, `IncludeDirectory` and `ModuleDirectory`.
 */
module DefinitionBuilder {
  import opened Common
  import opened CompilerModel
  import opened ContextBuilder

  /** What `pkgdef_split` yields on success: the package's directory when a package is named, and the path inside it. */
  datatype PackageSplit = PackageSplit(packageDir: Option<string>, path: string)

  /** The compiler configuration and the file-system oracles the include and module lookups use. */
  datatype IncludeConfig = IncludeConfig(
    fileExists: string -> bool,
    fullPath: string -> string,
    pkgdefSplit: string -> Option<PackageSplit>,
    polScriptRoot: string,
    includeDirectory: string,
    moduleDirectory: string)

  /** The location the editor jumps to in an include or module file: (1,1,0)-(1,1,0). */
  const FileStart: Range := Range(Position(1, 1, 0), Position(1, 1, 0))

  predicate IsSeparator(c: char)
  {
    c == '/' || c == '\\'
  }

  // ---------------------------------------------------------------------
  // getpathof

  /** `getpathof`: the prefix up to and including the last '/' or '\', or "./" when there is none. */
  function PathOf(fname: string): (dir: string)
    ensures (forall k :: 0 <= k < |fname| ==> !IsSeparator(fname[k])) ==> dir == "./"
    ensures (exists k :: 0 <= k < |fname| && IsSeparator(fname[k])) ==>
      (0 < |dir| <= |fname| && dir == fname[..|dir|] && IsSeparator(dir[|dir| - 1]) &&
       forall k :: |dir| <= k < |fname| ==> !IsSeparator(fname[k]))
  {
    match LastIndexWhere(fname, IsSeparator)
    case None => "./"
    case Some(k) => fname[..k + 1]
  }

  /** A directory ending in a separator, followed by a plain file name, gives that directory back. */
  lemma PathOfJoin(dir: string, name: string)
    requires |dir| > 0 && IsSeparator(dir[|dir| - 1])
    requires forall k :: 0 <= k < |name| ==> !IsSeparator(name[k])
    ensures PathOf(dir + name) == dir
  {
    var s := dir + name;
    LastIndexWhereAt(s, IsSeparator, |dir| - 1);
    assert s[..|dir|] == dir;
  }

  /** The directory of a directory is itself. */
  lemma PathOfIdempotent(fname: string)
    ensures PathOf(PathOf(fname)) == PathOf(fname)
  {
    var dir := PathOf(fname);
    if exists k :: 0 <= k < |fname| && IsSeparator(fname[k]) {
      PathOfJoin(dir, "");
      assert dir + "" == dir;
    } else {
      PathOfJoin("./", "");
      assert "./" == "./" + "";
    }
  }

  // ---------------------------------------------------------------------
  // get_include

  /**
   * The file an include names before `FullPath`: for ":pkg:path" the
   * package's file (or its "include/" sibling when only that exists), or the
   * script root's file when no package is named; otherwise the file beside
   * the current one, or the include directory's when only that exists. A
   * failed package split names nothing.
   */
  function IncludeCandidate(cfg: IncludeConfig, currentPath: string, includeName: string): Option<string>
  {
    var part := includeName + ".inc";
    if part[0] == ':' then
      match cfg.pkgdefSplit(part)
      case None => None
      case Some(split) =>
        if split.packageDir.Some? then
          var first := split.packageDir.value + split.path;
          var second := split.packageDir.value + "include/" + split.path;
          Some(if !cfg.fileExists(first) && cfg.fileExists(second) then second else first)
        else Some(cfg.polScriptRoot + split.path)
    else
      var first := currentPath + part;
      var second := cfg.includeDirectory + part;
      Some(if !cfg.fileExists(first) && cfg.fileExists(second) then second else first)
  }

  /** `filename_part[0] == ':'` holds exactly when the include name itself starts with ':'. */
  lemma PackageMarker(includeName: string)
    ensures (includeName + ".inc")[0] == ':' <==> StartsWith(includeName, ":")
  {
    if |includeName| > 0 {
      assert includeName[..1] == [includeName[0]];
    }
  }

  /** A plain include is found beside the current file when that file exists. */
  lemma LocalIncludeFirst(cfg: IncludeConfig, currentPath: string, includeName: string)
    requires !StartsWith(includeName, ":")
    requires cfg.fileExists(currentPath + includeName + ".inc")
    ensures IncludeCandidate(cfg, currentPath, includeName) == Some(currentPath + includeName + ".inc")
  {
    PackageMarker(includeName);
    assert currentPath + (includeName + ".inc") == currentPath + includeName + ".inc";
  }

  /**
   * A plain include resolves to the include directory exactly when the
   * local file is missing and the include directory's file exists; it
   * always names one of the two.
   */
  lemma IncludeDirectoryFallback(cfg: IncludeConfig, currentPath: string, includeName: string)
    requires !StartsWith(includeName, ":")
    ensures var first, second := currentPath + includeName + ".inc", cfg.includeDirectory + includeName + ".inc";
      var r := IncludeCandidate(cfg, currentPath, includeName);
      r.Some? && (r.value == first || r.value == second) &&
      (!cfg.fileExists(first) && cfg.fileExists(second) ==> r.value == second) &&
      (cfg.fileExists(first) || !cfg.fileExists(second) ==> r.value == first)
  {
    PackageMarker(includeName);
    assert currentPath + (includeName + ".inc") == currentPath + includeName + ".inc";
    assert cfg.includeDirectory + (includeName + ".inc") == cfg.includeDirectory + includeName + ".inc";
  }

  /** A package include resolves inside the package, preferring the file over its "include/" sibling. */
  lemma PackageInclude(cfg: IncludeConfig, currentPath: string, includeName: string, dir: string, path: string)
    requires StartsWith(includeName, ":")
    requires cfg.pkgdefSplit(includeName + ".inc") == Some(PackageSplit(Some(dir), path))
    ensures var r := IncludeCandidate(cfg, currentPath, includeName);
      r == Some(if !cfg.fileExists(dir + path) && cfg.fileExists(dir + "include/" + path) then dir + "include/" + path else dir + path)
  {
    PackageMarker(includeName);
  }

  /** A split without a package resolves against the script root; a failed split names nothing. */
  lemma ScriptRootOrNothing(cfg: IncludeConfig, currentPath: string, includeName: string)
    requires StartsWith(includeName, ":")
    ensures var r := IncludeCandidate(cfg, currentPath, includeName);
      match cfg.pkgdefSplit(includeName + ".inc")
      case None => r.None?
      case Some(split) => split.packageDir.None? ==> r == Some(cfg.polScriptRoot + split.path)
  {
    PackageMarker(includeName);
  }

  /** The first index of `target` in `paths` (`std::find_if` on equal pathnames). */
  function FirstIndexOf(paths: seq<string>, target: string): (r: Option<nat>)
    ensures r.Some? ==> r.value < |paths| && paths[r.value] == target && forall j :: 0 <= j < r.value ==> paths[j] != target
    ensures r.None? ==> target !in paths
  {
    if paths == [] then None
    else if paths[0] == target then Some(0)
    else
      var rest := FirstIndexOf(paths[1..], target);
      if rest.Some? then Some(rest.value + 1) else None
  }

  /** The zero-width start of the referenced file whose pathname is `pathname`, if the compiler read it. */
  function ReferencedFileStart(paths: seq<string>, pathname: string): (r: Option<SourceLocation>)
    ensures r.Some? <==> pathname in paths
    ensures r.Some? ==> r.value == SourceLocation(pathname, FileStart)
  {
    match FirstIndexOf(paths, pathname)
    case Some(i) => Some(SourceLocation(paths[i], FileStart))
    case None => None
  }

  /** What `get_include` answers; with no referenced file at all there is no current directory, and no answer. */
  function IncludeTarget(ws: CompilerWorkspace, cfg: IncludeConfig, includeName: string): Option<SourceLocation>
  {
    if ws.referencedPaths == [] then None
    else
      match IncludeCandidate(cfg, PathOf(ws.referencedPaths[0]), includeName)
      case None => None
      case Some(candidate) =>
        var full := cfg.fullPath(candidate);
        if full == "" then None else ReferencedFileStart(ws.referencedPaths, full)
  }

  /** What `get_module` answers: the module directory's "<name>.em", when the compiler read it. */
  function ModuleTarget(ws: CompilerWorkspace, cfg: IncludeConfig, moduleName: string): Option<SourceLocation>
  {
    ReferencedFileStart(ws.referencedPaths, cfg.fullPath(cfg.moduleDirectory + moduleName + ".em"))
  }

  /** Include and module answers point at the start of a file the compiler read, and at the resolved name. */
  lemma FileTargetsAreReferenced(ws: CompilerWorkspace, cfg: IncludeConfig, name: string)
    ensures var r := IncludeTarget(ws, cfg, name);
      r.Some? ==> (r.value.pathname in ws.referencedPaths && r.value.range == FileStart &&
        r.value.pathname != "" &&
        r.value.pathname == cfg.fullPath(IncludeCandidate(cfg, PathOf(ws.referencedPaths[0]), name).value))
    ensures var r := ModuleTarget(ws, cfg, name);
      (r.Some? <==> cfg.fullPath(cfg.moduleDirectory + name + ".em") in ws.referencedPaths) &&
      (r.Some? ==> r.value == SourceLocation(cfg.fullPath(cfg.moduleDirectory + name + ".em"), FileStart))
  {
  }

  /** `find_if` over the referenced pathnames. */
  method FindReferencedFile(paths: seq<string>, pathname: string) returns (r: Option<SourceLocation>)
    ensures r == ReferencedFileStart(paths, pathname)
  {
    var i := 0;
    while i < |paths|
      invariant 0 <= i <= |paths|
      invariant forall j :: 0 <= j < i ==> paths[j] != pathname
    {
      if paths[i] == pathname {
        return Some(SourceLocation(paths[i], FileStart));
      }
      i := i + 1;
    }
    return None;
  }

  /** `get_include`, step by step: the candidate is reassigned behind the existence checks, then made full and searched. */
  method GetInclude(ws: CompilerWorkspace, cfg: IncludeConfig, includeName: string) returns (r: Option<SourceLocation>)
    requires |ws.referencedPaths| > 0
    ensures r == IncludeTarget(ws, cfg, includeName)
  {
    var part := includeName + ".inc";
    var currentPath := PathOf(ws.referencedPaths[0]);
    var full := currentPath + part;
    if part[0] == ':' {
      var split := cfg.pkgdefSplit(part);
      if split.Some? {
        if split.value.packageDir.Some? {
          full := split.value.packageDir.value + split.value.path;
          var tryFull := split.value.packageDir.value + "include/" + split.value.path;
          if !cfg.fileExists(full) {
            if cfg.fileExists(tryFull) {
              full := tryFull;
            }
          }
        } else {
          full := cfg.polScriptRoot + split.value.path;
        }
      } else {
        return None;
      }
    } else {
      if !cfg.fileExists(full) {
        var tryFull := cfg.includeDirectory + part;
        if cfg.fileExists(tryFull) {
          full := tryFull;
        }
      }
    }
    assert IncludeCandidate(cfg, currentPath, includeName) == Some(full);
    full := cfg.fullPath(full);
    if full != "" {
      r := FindReferencedFile(ws.referencedPaths, full);
      return;
    }
    return None;
  }

  /** `get_module`. */
  method GetModule(ws: CompilerWorkspace, cfg: IncludeConfig, moduleName: string) returns (r: Option<SourceLocation>)
    ensures r == ModuleTarget(ws, cfg, moduleName)
  {
    var pathname := cfg.fullPath(cfg.moduleDirectory + moduleName + ".em");
    r := FindReferencedFile(ws.referencedPaths, pathname);
  }

  // ---------------------------------------------------------------------
  // get_program_parameter and get_class

  /** The location of the program's first parameter called `name`. */
  function ProgramParameterTarget(ws: CompilerWorkspace, name: string): Option<SourceLocation>
  {
    if ws.program.None? then None
    else
      match FindProgramParam(ws.program.value.parameters, name)
      case Some(p) => Some(p.location)
      case None => None
  }

  /** `get_program_parameter`: the first parameter whose name matches, else nothing. */
  method GetProgramParameter(ws: CompilerWorkspace, name: string) returns (r: Option<SourceLocation>)
    ensures r == ProgramParameterTarget(ws, name)
    ensures r.None? <==> (ws.program.None? || forall p :: p in ws.program.value.parameters ==> p.name != name)
    ensures r.Some? ==> ws.program.Some? && exists i :: (0 <= i < |ws.program.value.parameters| &&
      ws.program.value.parameters[i].name == name && r.value == ws.program.value.parameters[i].location &&
      forall j :: 0 <= j < i ==> ws.program.value.parameters[j].name != name)
  {
    if ws.program.None? {
      return None;
    }
    var params := ws.program.value.parameters;
    var i := 0;
    while i < |params|
      invariant 0 <= i <= |params|
      invariant forall j :: 0 <= j < i ==> params[j].name != name
      invariant FindProgramParam(params, name) == FindProgramParam(params[i..], name)
    {
      assert params[i..][1..] == params[i + 1..];
      if params[i].name == name {
        return Some(params[i].location);
      }
      i := i + 1;
    }
    return None;
  }

  /** `get_class`: the stored class location, or nothing. */
  function ClassTarget(ws: CompilerWorkspace, name: string): (r: Option<SourceLocation>)
    ensures r.Some? <==> name in ws.classLocations
    ensures r.Some? ==> r.value == ws.classLocations[name]
  {
    if name in ws.classLocations then Some(ws.classLocations[name]) else None
  }

  // ---------------------------------------------------------------------
  // The projection

  /** The hooks of `DefinitionBuilder`: declarations answer with their own location; members and methods with nothing. */
  function DefinitionHooks(ws: CompilerWorkspace, cfg: IncludeConfig): (h: Hooks<SourceLocation>)
    ensures forall v :: h.getVariable(v) == Some(v.location)
    ensures forall c :: h.getConstant(c) == Some(c.location)
    ensures forall m :: h.getModuleFunction(m) == Some(m.location)
    ensures forall u :: h.getUserFunction(u) == Some(u.location)
    ensures forall m, p :: h.getModuleFunctionParameter(m, p) == Some(p.location)
    ensures forall u, p :: h.getUserFunctionParameter(u, p) == Some(p.location)
    ensures forall n, p :: h.getProgram(n, p) == Some(p.location)
    ensures forall n :: h.getProgramParameter(n) == ProgramParameterTarget(ws, n)
    ensures forall n :: h.getInclude(n) == IncludeTarget(ws, cfg, n)
    ensures forall n :: h.getModule(n) == ModuleTarget(ws, cfg, n)
    ensures forall n :: h.getClass(n) == ClassTarget(ws, n)
    ensures forall n :: h.getMember(n).None? && h.getMethod(n).None?
  {
    Hooks(
      (v: Variable) => Some(v.location),
      (c: ConstDecl) => Some(c.location),
      (m: ModuleFunction) => Some(m.location),
      (m: ModuleFunction, p: Param) => Some(p.location),
      (u: UserFunction) => Some(u.location),
      (u: UserFunction, p: Param) => Some(p.location),
      (n: string, p: Program) => Some(p.location),
      (n: string) => ProgramParameterTarget(ws, n),
      (n: string) => None,
      (n: string) => IncludeTarget(ws, cfg, n),
      (n: string) => ModuleTarget(ws, cfg, n),
      (n: string) => None,
      (n: string) => ClassTarget(ws, n))
  }

  /** A variable resolved at the cursor is answered with its declaration's location, shadowed only by a constant. */
  lemma VariableDefinition(ws: CompilerWorkspace, cfg: IncludeConfig, pos: Position, rc: RangeTest, name: string)
    requires ws.scopeTree.findConstant(name).None? && ws.scopeTree.findVariable(name, pos).Some?
    ensures TryConstantOrVariable(Env(ws, pos, rc, DefinitionHooks(ws, cfg)), name) ==
      Some(ws.scopeTree.findVariable(name, pos).value.location)
  {
  }

  /** `DefinitionBuilder(workspace, position).context()`. */
  method Definition(ws: CompilerWorkspace, cfg: IncludeConfig, position: Position, rc: RangeTest) returns (r: Option<SourceLocation>)
    ensures var env := Env(ws, position, rc, DefinitionHooks(ws, cfg));
      var stack := if ws.source.Some? then PushedBy(rc, position, RootFrame(ws.source.value)) else [];
      var cs := if ws.source.Some? then Tracked(rc, position, ClassDeclaration, ws.source.value, "") else "";
      var cuf := if ws.source.Some? then Tracked(rc, position, FunctionDeclaration, ws.source.value, "") else "";
      r == Run(env, stack, cs, cuf).result
  {
    var env := Env(ws, position, rc, DefinitionHooks(ws, cfg));
    var builder := new SemanticContextBuilder(env);
    assert builder.env == env && builder.nodes == [] && builder.callingScope == "" && builder.currentUserFunction == "";
    r := builder.Context();
    if ws.source.Some? {
      assert [] + PushedBy(rc, position, RootFrame(ws.source.value)) == PushedBy(rc, position, RootFrame(ws.source.value));
    }
  }
}
