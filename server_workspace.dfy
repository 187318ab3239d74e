/**
 * The older copy of the workspace locator. Its cfg line rules are those of
 * `WorkspaceCfg`; it differs in where the walk starts (the parent of the
 * script's directory), in not resolving any path, and in checking that the
 * configured directories and package roots exist.
 */
module ServerWorkspace {
  import opened Common
  import WorkspacePaths
  import opened WorkspaceCfg

  /** `CfgFileReader.load(path)`: the flag defaults to false, so a call without it always fails. */
  method LoadWithDefault(contents: Result<string>) returns (r: Result<CfgMap>)
    ensures r.Failure?
    ensures contents.Success? ==> r == Failure(NotSupported)
  {
    r := Load(contents, false);
  }

  /** The package roots that exist, in the order the cfg file lists them. */
  function AccessibleRoots(accessible: string -> bool, roots: seq<string>): (r: seq<string>)
    ensures forall x :: x in r <==> x in roots && accessible(x)
    ensures |r| <= |roots|
  {
    if roots == [] then []
    else
      var rest := AccessibleRoots(accessible, roots[..|roots| - 1]);
      var x := roots[|roots| - 1];
      assert forall y :: y in roots <==> y in roots[..|roots| - 1] || y == x;
      if accessible(x) then rest + [x] else rest
  }

  /** The loop that keeps each package root whose `access` succeeds. */
  method KeepAccessible(fs: FileSystem, roots: seq<string>) returns (kept: seq<string>)
    ensures kept == AccessibleRoots(fs.accessible, roots)
  {
    kept := [];
    for i := 0 to |roots|
      invariant kept == AccessibleRoots(fs.accessible, roots[..i])
    {
      assert roots[..i + 1][..i] == roots[..i];
      if fs.accessible(roots[i]) {
        kept := kept + [roots[i]];
      }
    }
    assert roots[..|roots|] == roots;
  }

  /**
   * One directory of the older walk: the directory itself is the root, the
   * three configured directories must exist, and package roots that do not
   * exist are dropped.
   */
  function OldProbe(fs: FileSystem, dir: string): (r: Option<WorkspaceConfig>)
  {
    var cfg := CfgAt(fs, dir);
    if cfg.None? || !HasRequiredKeys(cfg.value) then None
    else OldConfig(dir, cfg.value, fs.accessible)
  }

  /** The existence checks on a parsed ecompile.cfg that has the required keys. */
  function OldConfig(dir: string, cfg: CfgMap, accessible: string -> bool): (r: Option<WorkspaceConfig>)
    requires HasRequiredKeys(cfg)
  {
    var md, id, ps := cfg["moduledirectory"][0], cfg["includedirectory"][0], cfg["polscriptroot"][0];
    if !accessible(md) || !accessible(id) || !accessible(ps) then None
    else
      var roots := if "packageroot" in cfg then cfg["packageroot"] else [];
      Some(WorkspaceConfig(dir, md, id, ps, AccessibleRoots(accessible, roots)))
  }

  /** A configuration found by the older walk names its own directory as the root, and everything it names exists. */
  lemma OldProbeChecksExistence(fs: FileSystem, dir: string)
    requires OldProbe(fs, dir).Some?
    ensures var r := OldProbe(fs, dir).value;
      r.polRoot == dir && fs.hasPolCfg(dir) &&
      fs.accessible(r.moduleDirectory) && fs.accessible(r.includeDirectory) && fs.accessible(r.polScriptRoot) &&
      forall x :: x in r.packageRoots ==> fs.accessible(x)
  {
  }

  /** A directory with a pol.cfg whose ecompile.cfg lacks a required key is passed over. */
  lemma MissingKeyPassedOver(fs: FileSystem, dir: string)
    requires Prober(fs)(dir).MissingKey?
    ensures OldProbe(fs, dir).None?
  {
  }

  /** The older walk: `dirname` comes first, so the script's own directory is never a candidate. */
  function OldWalk(fs: FileSystem, path: string): Option<WorkspaceConfig>
    decreases WorkspacePaths.DirMeasure(path)
  {
    var next := WorkspacePaths.Dirname(path);
    if next == path then None
    else
      var c := OldProbe(fs, next);
      if c.Some? then c else OldWalk(fs, next)
  }

  /** The root the older walk finds is a proper ancestor of the path: never the path itself. */
  lemma {:induction false} OldWalkStrictAncestor(fs: FileSystem, path: string)
    decreases WorkspacePaths.DirMeasure(path)
    requires OldWalk(fs, path).Some?
    ensures OldWalk(fs, path).value.polRoot in WorkspacePaths.Ancestors(path)[1..]
    ensures WorkspacePaths.DirMeasure(OldWalk(fs, path).value.polRoot) < WorkspacePaths.DirMeasure(path)
  {
    var next := WorkspacePaths.Dirname(path);
    var a := WorkspacePaths.Ancestors(path);
    assert a == [path] + WorkspacePaths.Ancestors(next);
    assert a[1..] == WorkspacePaths.Ancestors(next);
    if OldProbe(fs, next).None? {
      OldWalkStrictAncestor(fs, next);
      var b := WorkspacePaths.Ancestors(next);
      assert b == [next] + b[1..];
    }
  }

  /** The `try` block for one directory, reading the cfg file through `Load`. */
  method TryOldDirectory(fs: FileSystem, dir: string) returns (r: Option<WorkspaceConfig>)
    ensures r == OldProbe(fs, dir)
  {
    if !fs.hasPolCfg(dir) {
      assert CfgAt(fs, dir).None?;
      return None;
    }
    var cfg := Load(fs.ecompileCfg(dir), true);
    if cfg.Failure? {
      assert CfgAt(fs, dir).None?;
      return None;
    }
    assert CfgAt(fs, dir) == Some(cfg.value);
    r := CheckOldConfig(fs, dir, cfg.value);
  }

  /** The key and existence checks of the `try` block, on the parsed file. */
  method CheckOldConfig(fs: FileSystem, dir: string, parsed: CfgMap) returns (r: Option<WorkspaceConfig>)
    ensures r == if HasRequiredKeys(parsed) then OldConfig(dir, parsed, fs.accessible) else None
  {
    var md := FirstValue(parsed, "moduledirectory");
    var id := FirstValue(parsed, "includedirectory");
    var ps := FirstValue(parsed, "polscriptroot");
    if !Truthy(md) || !Truthy(id) || !Truthy(ps) {
      return None;
    }
    if !fs.accessible(md.value) || !fs.accessible(id.value) || !fs.accessible(ps.value) {
      return None;
    }
    var packageRoots: seq<string> := [];
    if "packageroot" in parsed {
      packageRoots := KeepAccessible(fs, parsed["packageroot"]);
    }
    r := Some(WorkspaceConfig(dir, md.value, id.value, ps.value, packageRoots));
  }

  /** The older `Workspace`'s static cache. */
  class OldWorkspaceCache {
    var workspaces: seq<WorkspaceConfig>

    predicate Valid()
      reads this
    {
      DistinctRoots(workspaces)
    }

    constructor()
      ensures Valid() && workspaces == []
    {
      workspaces := [];
    }

    /**
     * The older `_find`: a cached root that is a prefix of `path` answers
     * at once; otherwise the walk starts at the parent directory.
     */
    method Find(path: string, fs: FileSystem) returns (r: Option<WorkspaceConfig>)
      requires Valid()
      modifies this
      ensures Valid()
      ensures FirstPrefix(old(workspaces), path).Some? ==>
                r == FirstPrefix(old(workspaces), path) && workspaces == old(workspaces)
      ensures FirstPrefix(old(workspaces), path).None? ==>
                r == OldWalk(fs, path) &&
                workspaces == (if r.Some? then PutConfig(old(workspaces), r.value) else old(workspaces))
    {
      r := CachedFor(workspaces, path);
      if r.Some? {
        return;
      }
      var p := path;
      while true
        invariant OldWalk(fs, p) == OldWalk(fs, path)
        invariant workspaces == old(workspaces)
        decreases WorkspacePaths.DirMeasure(p)
      {
        var next := WorkspacePaths.Dirname(p);
        if next == p {
          return None;
        }
        p := next;
        var c := TryOldDirectory(fs, p);
        if c.Some? {
          PutConfigDistinct(workspaces, c.value);
          workspaces := PutConfig(workspaces, c.value);
          return c;
        }
      }
    }
  }
}
