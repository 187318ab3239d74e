/**
 * The newer workspace locator of the language server: `CfgFileReader.load`,
 * which reads `key value` / `key=value` lines of an ecompile.cfg file, and
 * the `Workspace` cache, which maps a POL root to its configuration and
 * finds the workspace of a script by walking up its directories.
 *
 * The file system is an oracle (`FileSystem`): whether a directory holds a
 * pol.cfg, the text of its scripts/ecompile.cfg (or the read error), and
 * `path.resolve`.
 */
module WorkspaceCfg {
  import opened Common
  import opened ConfigParser
  import WorkspacePaths

  // ---------------------------------------------------------------------
  // The line regex /^([^=\s]+)\s*(?:=\s*)?(.+)$/
  // ---------------------------------------------------------------------

  /** `[^=\s]`: a character of the key group. */
  predicate IsKeyChar(c: char)
  {
    c != '=' && !IsSpaceOrBreak(c)
  }

  /** `.`: any character except a line terminator. */
  predicate IsDotChar(c: char)
  {
    !IsLineTerminator(c)
  }

  predicate AllIn(line: string, a: nat, b: nat, p: char -> bool)
    requires a <= b <= |line|
  {
    forall i :: a <= i < b ==> p(line[i])
  }

  /** `(.+)$` matches the rest of the line from `p`. */
  predicate Tail(line: string, p: nat)
  {
    p < |line| && AllIn(line, p, |line|, IsDotChar)
  }

  /** `\s*(?:=\s*)?` matches `line[j..p]`. */
  predicate SepAt(line: string, j: nat, p: nat)
    requires j <= p <= |line|
  {
    AllIn(line, j, p, IsSpaceOrBreak) ||
    exists e :: j <= e < p && line[e] == '=' && AllIn(line, j, e, IsSpaceOrBreak) && AllIn(line, e + 1, p, IsSpaceOrBreak)
  }

  /** The whole regex matches with the key group `line[..j]` and the value group `line[p..]`. */
  predicate IsMatch(line: string, j: nat, p: nat)
  {
    1 <= j <= p <= |line| && AllIn(line, 0, j, IsKeyChar) && SepAt(line, j, p) && Tail(line, p)
  }

  /** After `=`, the `\s*` backtracks from `w` down to `lo` until `(.+)$` matches. */
  function AfterEquals(line: string, lo: nat, w: nat): (r: Option<nat>)
    requires lo <= w <= |line|
    decreases w - lo
    ensures r.Some? ==> lo <= r.value <= w && Tail(line, r.value)
    ensures r.None? ==> forall q :: lo <= q <= w ==> !Tail(line, q)
  {
    if Tail(line, w) then Some(w)
    else if w == lo then None
    else AfterEquals(line, lo, w - 1)
  }

  /**
   * After the key group ending at `j`, the leading `\s*` backtracks from `w`
   * down to `j`; at each length the optional `=\s*` is tried before it is
   * skipped.
   */
  function AfterKey(line: string, j: nat, w: nat): (r: Option<nat>)
    requires j <= w <= |line| && AllIn(line, j, w, IsSpaceOrBreak)
    decreases w - j
    ensures r.Some? ==> j <= r.value <= |line| && SepAt(line, j, r.value) && Tail(line, r.value)
    ensures r.None? ==> forall q :: j <= q <= w ==> !Tail(line, q)
    ensures r.None? && w < |line| && line[w] == '=' ==>
              forall q :: w + 1 <= q <= RunEnd(line, w + 1, IsSpaceOrBreak) ==> !Tail(line, q)
  {
    var viaEq := if w < |line| && line[w] == '=' then AfterEquals(line, w + 1, RunEnd(line, w + 1, IsSpaceOrBreak)) else None;
    if viaEq.Some? then
      assert line[w] == '=' && AllIn(line, w + 1, viaEq.value, IsSpaceOrBreak);
      viaEq
    else if Tail(line, w) then Some(w)
    else if w == j then None
    else AfterKey(line, j, w - 1)
  }

  /** The key group backtracks from `j` characters down to one. */
  function KeyFrom(line: string, j: nat): (r: Option<(nat, nat)>)
    requires j <= |line| && AllIn(line, 0, j, IsKeyChar)
    ensures r.Some? ==> IsMatch(line, r.value.0, r.value.1)
    ensures r.None? ==> forall i :: 1 <= i <= j ==> AfterKey(line, i, RunEnd(line, i, IsSpaceOrBreak)).None?
  {
    if j == 0 then None
    else
      var a := AfterKey(line, j, RunEnd(line, j, IsSpaceOrBreak));
      if a.Some? then Some((j, a.value)) else KeyFrom(line, j - 1)
  }

  /** `line.match(/^([^=\s]+)\s*(?:=\s*)?(.+)$/)`, as the key and value groups. */
  function MatchCfgLine(line: string): (r: Option<WorkspacePaths.KeyValue>)
    ensures r.Some? ==> exists j: nat, p: nat :: IsMatch(line, j, p) && r.value == WorkspacePaths.KeyValue(line[..j], line[p..])
  {
    var m := KeyFrom(line, RunEnd(line, 0, IsKeyChar));
    if m.None? then None else Some(WorkspacePaths.KeyValue(line[..m.value.0], line[m.value.1..]))
  }

  /** The regex matches every line that has a decomposition into its three parts. */
  lemma MatchCfgLineComplete(line: string, j: nat, p: nat)
    requires IsMatch(line, j, p)
    ensures MatchCfgLine(line).Some?
  {
    var k := RunEnd(line, 0, IsKeyChar);
    RunEndCovers(line, 0, IsKeyChar, j);
    var hi := RunEnd(line, j, IsSpaceOrBreak);
    if AllIn(line, j, p, IsSpaceOrBreak) {
      RunEndCovers(line, j, IsSpaceOrBreak, p);
    } else {
      var e :| j <= e < p && line[e] == '=' && AllIn(line, j, e, IsSpaceOrBreak) && AllIn(line, e + 1, p, IsSpaceOrBreak);
      RunEndCovers(line, j, IsSpaceOrBreak, e);
      RunEndAt(line, j, IsSpaceOrBreak, e);
      RunEndCovers(line, e + 1, IsSpaceOrBreak, p);
    }
    assert AfterKey(line, j, hi).Some?;
  }

  /**
   * A key, a separator of white space with at most one '=', and a value
   * parse as that key and value; this covers "key value", "key\tvalue" and
   * "key=value".
   */
  lemma SeparatedLine(line: string, key: string, s1: string, eq: string, s2: string, value: string)
    requires line == key + s1 + eq + s2 + value
    requires |key| >= 1 && forall i :: 0 <= i < |key| ==> IsKeyChar(key[i])
    requires forall i :: 0 <= i < |s1| ==> IsSpaceOrBreak(s1[i])
    requires forall i :: 0 <= i < |s2| ==> IsSpaceOrBreak(s2[i])
    requires eq == "=" || (eq == "" && s2 == "" && |s1| >= 1)
    requires |value| >= 1 && !IsSpaceOrBreak(value[0]) && (eq == "" ==> value[0] != '=')
    requires forall i :: 0 <= i < |value| ==> IsDotChar(value[i])
    ensures MatchCfgLine(line) == Some(WorkspacePaths.KeyValue(key, value))
  {
    var k, hi := |key|, |key| + |s1|;
    var p := hi + |eq| + |s2|;
    CfgLineParts(line, key, s1, eq, s2, value);
    SeparatedAt(line, k, hi, p);
  }

  /** The positions of the parts of such a line, as `SeparatedAt` needs them. */
  lemma CfgLineParts(line: string, key: string, s1: string, eq: string, s2: string, value: string)
    requires line == key + s1 + eq + s2 + value
    requires |key| >= 1 && forall i :: 0 <= i < |key| ==> IsKeyChar(key[i])
    requires forall i :: 0 <= i < |s1| ==> IsSpaceOrBreak(s1[i])
    requires forall i :: 0 <= i < |s2| ==> IsSpaceOrBreak(s2[i])
    requires eq == "=" || (eq == "" && s2 == "" && |s1| >= 1)
    requires |value| >= 1 && !IsSpaceOrBreak(value[0]) && (eq == "" ==> value[0] != '=')
    requires forall i :: 0 <= i < |value| ==> IsDotChar(value[i])
    ensures var k, hi := |key|, |key| + |s1|;
      var p := hi + |eq| + |s2|;
      1 <= k <= hi <= p < |line| &&
      AllIn(line, 0, k, IsKeyChar) && !IsKeyChar(line[k]) && AllIn(line, k, hi, IsSpaceOrBreak) &&
      AllIn(line, p, |line|, IsDotChar) && !IsSpaceOrBreak(line[p]) &&
      ((hi == p && line[p] != '=') || (hi < p && line[hi] == '=' && AllIn(line, hi + 1, p, IsSpaceOrBreak))) &&
      line[..k] == key && line[p..] == value
  {
    var k, hi := |key|, |key| + |s1|;
    var p := hi + |eq| + |s2|;
    PartsAt(key + s1, eq, s2, value);
    PartsAt(key, s1, "", "");
    assert key + s1 + "" + "" == key + s1;
    assert forall i :: 0 <= i < k ==> line[i] == key[i];
    assert forall i :: k <= i < hi ==> line[i] == s1[i - k];
    assert !IsKeyChar(line[k]) by {
      if |s1| > 0 { assert line[k] == s1[0]; } else { assert line[k] == eq[0]; }
    }
    assert line[p] == value[0];
    assert eq == "=" ==> line[hi] == '=';
    assert line[..k] == key;
    assert line[p..] == value;
  }

  /**
   * The match on a line given by positions: the key run `[0, k)`, spaces to
   * `hi`, then either the value at once or '=' and spaces up to the value at
   * `p`.
   */
  lemma SeparatedAt(line: string, k: nat, hi: nat, p: nat)
    requires 1 <= k <= hi <= p < |line|
    requires AllIn(line, 0, k, IsKeyChar) && !IsKeyChar(line[k]) && AllIn(line, k, hi, IsSpaceOrBreak)
    requires AllIn(line, p, |line|, IsDotChar) && !IsSpaceOrBreak(line[p])
    requires (hi == p && line[p] != '=') || (hi < p && line[hi] == '=' && AllIn(line, hi + 1, p, IsSpaceOrBreak))
    ensures MatchCfgLine(line) == Some(WorkspacePaths.KeyValue(line[..k], line[p..]))
  {
    RunEndAt(line, 0, IsKeyChar, k);
    assert Tail(line, p);
    if hi < p {
      RunEndAt(line, k, IsSpaceOrBreak, hi);
      RunEndAt(line, hi + 1, IsSpaceOrBreak, p);
      EqualsThenValue(line, k, hi, p);
    } else {
      RunEndAt(line, k, IsSpaceOrBreak, hi);
      SpacesThenValue(line, k, hi);
    }
    MatchCfgLineAt(line, k, p);
  }

  /** `key=value` after spaces: the first try, through the '=', takes the value at `p`. */
  lemma EqualsThenValue(line: string, k: nat, hi: nat, p: nat)
    requires k <= hi < p <= |line| && AllIn(line, k, hi, IsSpaceOrBreak) && line[hi] == '='
    requires RunEnd(line, k, IsSpaceOrBreak) == hi && RunEnd(line, hi + 1, IsSpaceOrBreak) == p && Tail(line, p)
    ensures AfterKey(line, k, RunEnd(line, k, IsSpaceOrBreak)) == Some(p)
  {
    assert AfterEquals(line, hi + 1, p) == Some(p);
  }

  /** `key value`: with no '=' the spaces end at the value, taken at once. */
  lemma SpacesThenValue(line: string, k: nat, hi: nat)
    requires k <= hi <= |line| && RunEnd(line, k, IsSpaceOrBreak) == hi && Tail(line, hi) && line[hi] != '='
    ensures AfterKey(line, k, RunEnd(line, k, IsSpaceOrBreak)) == Some(hi)
  {
  }

  /** The match once the key run and the separator are known. */
  lemma MatchCfgLineAt(line: string, k: nat, p: nat)
    requires k <= |line| && RunEnd(line, 0, IsKeyChar) == k && k >= 1 && p <= |line|
    requires AfterKey(line, k, RunEnd(line, k, IsSpaceOrBreak)) == Some(p)
    ensures MatchCfgLine(line) == Some(WorkspacePaths.KeyValue(line[..k], line[p..]))
  {
  }

  /** The three separators the cfg files use. */
  lemma CommonSeparators(key: string, value: string)
    requires |key| >= 1 && forall i :: 0 <= i < |key| ==> IsKeyChar(key[i])
    requires |value| >= 1 && !IsSpaceOrBreak(value[0]) && value[0] != '='
    requires forall i :: 0 <= i < |value| ==> IsDotChar(value[i])
    ensures MatchCfgLine(key + " " + value) == Some(WorkspacePaths.KeyValue(key, value))
    ensures MatchCfgLine(key + "\t" + value) == Some(WorkspacePaths.KeyValue(key, value))
    ensures MatchCfgLine(key + "=" + value) == Some(WorkspacePaths.KeyValue(key, value))
  {
    OneSeparator(key, " ", value);
    OneSeparator(key, "\t", value);
    OneSeparator(key, "=", value);
  }

  /** A separator of one character, as `SeparatedLine` with the empty parts dropped. */
  lemma OneSeparator(key: string, sep: string, value: string)
    requires |key| >= 1 && forall i :: 0 <= i < |key| ==> IsKeyChar(key[i])
    requires sep == " " || sep == "\t" || sep == "="
    requires |value| >= 1 && !IsSpaceOrBreak(value[0]) && value[0] != '='
    requires forall i :: 0 <= i < |value| ==> IsDotChar(value[i])
    ensures MatchCfgLine(key + sep + value) == Some(WorkspacePaths.KeyValue(key, value))
  {
    if sep == "=" {
      assert key + sep + value == key + "" + sep + "" + value;
      SeparatedLine(key + sep + value, key, "", sep, "", value);
    } else {
      assert key + sep + value == key + sep + "" + "" + value;
      SeparatedLine(key + sep + value, key, sep, "", "", value);
    }
  }

  // ---------------------------------------------------------------------
  // CfgFileReader.load
  // ---------------------------------------------------------------------

  /** A parsed cfg file: lowercased key to its values in file order. */
  type CfgMap = map<string, seq<string>>

  /** What one line contributes: nothing for a '#' comment or a line the regex rejects. */
  function LineEntry(line: string): (r: Option<WorkspacePaths.KeyValue>)
    ensures r.Some? ==> !StartsWith(line, "#") && MatchCfgLine(line) == r
    ensures r.None? ==> StartsWith(line, "#") || MatchCfgLine(line).None?
  {
    if StartsWith(line, "#") then None else MatchCfgLine(line)
  }

  function ApplyCfgLine(ret: CfgMap, line: string): CfgMap
  {
    var e := LineEntry(line);
    if e.None? then ret
    else
      var key := Lower(e.value.key);
      if key in ret then ret[key := ret[key] + [e.value.value]] else ret[key := [e.value.value]]
  }

  /** The object `load(path, true)` builds from the lines of the file. */
  function ParseLines(lines: seq<string>): (r: CfgMap)
    ensures forall key :: key in r ==> Lower(key) == key && |r[key]| >= 1
  {
    if lines == [] then map[]
    else
      var prev := ParseLines(lines[..|lines| - 1]);
      var r := ApplyCfgLine(prev, lines[|lines| - 1]);
      var e := LineEntry(lines[|lines| - 1]);
      assert e.Some? ==> Lower(Lower(e.value.key)) == Lower(e.value.key) by {
        if e.Some? { LowerIdempotent(e.value.key); }
      }
      r
  }

  /** Reference: the values of every line whose lowercased key is `key`, in file order. */
  function ValuesOf(lines: seq<string>, key: string): seq<string>
  {
    if lines == [] then []
    else
      var e := LineEntry(lines[|lines| - 1]);
      ValuesOf(lines[..|lines| - 1], key) + (if e.Some? && Lower(e.value.key) == key then [e.value.value] else [])
  }

  /** The parsed file holds a key exactly when some line gives it a value, and then all of them in order. */
  lemma {:induction false} CfgValues(lines: seq<string>, key: string)
    ensures key in ParseLines(lines) <==> ValuesOf(lines, key) != []
    ensures key in ParseLines(lines) ==> ParseLines(lines)[key] == ValuesOf(lines, key)
  {
    if lines != [] {
      CfgValues(lines[..|lines| - 1], key);
    }
  }

  const NotSupported: string := "parseAsInner=false not yet supported"

  /**
   * `CfgFileReader.load`: `contents` is the outcome of reading the file,
   * whose error is passed on.
   */
  method Load(contents: Result<string>, parseAsInner: bool) returns (r: Result<CfgMap>)
    ensures contents.Failure? ==> r == Failure(contents.error)
    ensures contents.Success? && !parseAsInner ==> r == Failure(NotSupported)
    ensures contents.Success? && parseAsInner ==> r == Success(ParseLines(WorkspacePaths.SplitRuns(contents.value)))
  {
    if contents.Failure? {
      return Failure(contents.error);
    }
    if !parseAsInner {
      return Failure(NotSupported);
    }
    var lines := WorkspacePaths.SplitRuns(contents.value);
    var ret: CfgMap := map[];
    for i := 0 to |lines|
      invariant ret == ParseLines(lines[..i])
    {
      ParseLinesStep(lines, i);
      var line := lines[i];
      if StartsWith(line, "#") {
        continue;
      }
      var m := MatchCfgLine(line);
      if m.Some? {
        var key := Lower(m.value.key);
        var value := m.value.value;
        if key in ret {
          ret := ret[key := ret[key] + [value]];
        } else {
          ret := ret[key := [value]];
        }
      }
    }
    AllTaken(lines, |lines|);
    return Success(ret);
  }

  /** One more line is applied to the object built from the lines before it. */
  lemma ParseLinesStep(lines: seq<string>, i: nat)
    requires i < |lines|
    ensures ParseLines(lines[..i + 1]) == ApplyCfgLine(ParseLines(lines[..i]), lines[i])
  {
    assert lines[..i + 1][..i] == lines[..i];
  }

  /** `cfg.key?.[0]`. */
  function FirstValue(cfg: CfgMap, key: string): (r: Option<string>)
    ensures r.Some? <==> key in cfg && |cfg[key]| >= 1
  {
    if key in cfg && |cfg[key]| >= 1 then Some(cfg[key][0]) else None
  }

  /** A JavaScript truthiness test on an optional string. */
  predicate Truthy(v: Option<string>)
  {
    v.Some? && v.value != ""
  }

  // ---------------------------------------------------------------------
  // The workspace cache
  // ---------------------------------------------------------------------

  datatype WorkspaceConfig = WorkspaceConfig(
    polRoot: string,
    moduleDirectory: string,
    includeDirectory: string,
    polScriptRoot: string,
    packageRoots: seq<string>)

  /** The file system as `_find` sees it. */
  datatype FileSystem = FileSystem(
    hasPolCfg: string -> bool,               // access(join(dir, 'pol.cfg')) succeeds
    ecompileCfg: string -> Result<string>,   // readFile(join(dir, 'scripts', 'ecompile.cfg'))
    accessible: string -> bool,              // access(p) succeeds
    resolve: string -> string,               // path.resolve(p)
    resolveFrom: (string, string) -> string) // path.resolve(base, p)

  /** The cache is a Map keyed by polRoot: no root appears twice. */
  predicate DistinctRoots(ws: seq<WorkspaceConfig>)
  {
    forall i, j :: 0 <= i < j < |ws| ==> ws[i].polRoot != ws[j].polRoot
  }

  function Roots(ws: seq<WorkspaceConfig>): (r: set<string>)
    ensures forall c :: c in ws ==> c.polRoot in r
    ensures forall root :: root in r ==> exists c :: c in ws && c.polRoot == root
  {
    set c | c in ws :: c.polRoot
  }

  /** In a cache with distinct roots, the first entry's root is not among the others. */
  lemma HeadRootFresh(ws: seq<WorkspaceConfig>)
    requires DistinctRoots(ws) && ws != []
    ensures forall d :: d in ws[1..] ==> d.polRoot != ws[0].polRoot
    ensures ws[0].polRoot !in Roots(ws[1..])
    ensures Roots(ws) == Roots(ws[1..]) + {ws[0].polRoot}
    ensures DistinctRoots(ws[1..])
  {
    forall d | d in ws[1..] ensures d.polRoot != ws[0].polRoot {
      var i :| 0 <= i < |ws[1..]| && ws[1..][i] == d;
      assert ws[i + 1] == d;
    }
    assert forall d :: d in ws ==> d == ws[0] || d in ws[1..];
    assert forall i :: 0 <= i < |ws| - 1 ==> ws[1..][i] == ws[i + 1];
  }

  /** A configuration whose root is not among those of a cache with distinct roots can go in front. */
  lemma ConsDistinct(c: WorkspaceConfig, rest: seq<WorkspaceConfig>)
    requires DistinctRoots(rest) && forall d :: d in rest ==> d.polRoot != c.polRoot
    ensures DistinctRoots([c] + rest)
  {
    var r := [c] + rest;
    forall i, j | 0 <= i < j < |r| ensures r[i].polRoot != r[j].polRoot {
      assert r[j] == rest[j - 1];
      if i > 0 {
        assert r[i] == rest[i - 1];
      } else {
        assert rest[j - 1] in rest;
      }
    }
  }

  /** The size of the Map is the number of distinct roots. */
  lemma {:induction false} DistinctRootsCount(ws: seq<WorkspaceConfig>)
    requires DistinctRoots(ws)
    ensures |Roots(ws)| == |ws|
  {
    if ws != [] {
      DistinctRootsCount(ws[1..]);
      HeadRootFresh(ws);
    }
  }

  /** The first cached workspace, in insertion order, whose root is a prefix of `path`. */
  function FirstPrefix(ws: seq<WorkspaceConfig>, path: string): (r: Option<WorkspaceConfig>)
    ensures r.Some? ==> r.value in ws && StartsWith(path, r.value.polRoot)
    ensures r.None? <==> forall c :: c in ws ==> !StartsWith(path, c.polRoot)
  {
    if ws == [] then None
    else if StartsWith(path, ws[0].polRoot) then Some(ws[0])
    else
      var r := FirstPrefix(ws[1..], path);
      assert forall c :: c in ws ==> c == ws[0] || c in ws[1..];
      r
  }

  /**
   * `workspaces.set(c.polRoot, c)`: a known root keeps its place with the
   * new value, a new one goes last.
   */
  function PutConfig(ws: seq<WorkspaceConfig>, c: WorkspaceConfig): (r: seq<WorkspaceConfig>)
    requires DistinctRoots(ws)
    ensures forall d :: d in r ==> d == c || (d in ws && d.polRoot != c.polRoot)
    ensures c in r
    ensures forall d :: d in ws && d.polRoot != c.polRoot ==> d in r
  {
    if ws == [] then [c]
    else
      HeadRootFresh(ws);
      if ws[0].polRoot == c.polRoot then
        [c] + ws[1..]
      else
        assert forall d :: d in ws ==> d == ws[0] || d in ws[1..];
        [ws[0]] + PutConfig(ws[1..], c)
  }

  /** Putting a configuration keeps the roots distinct. */
  lemma {:induction false} PutConfigDistinct(ws: seq<WorkspaceConfig>, c: WorkspaceConfig)
    requires DistinctRoots(ws)
    ensures DistinctRoots(PutConfig(ws, c))
  {
    if ws != [] {
      HeadRootFresh(ws);
      if ws[0].polRoot != c.polRoot {
        PutConfigDistinct(ws[1..], c);
        ConsDistinct(ws[0], PutConfig(ws[1..], c));
      } else {
        ConsDistinct(c, ws[1..]);
      }
    }
  }

  /** Putting a configuration grows the cache exactly when its root is new. */
  lemma {:induction false} PutConfigCount(ws: seq<WorkspaceConfig>, c: WorkspaceConfig)
    requires DistinctRoots(ws)
    ensures |PutConfig(ws, c)| == if c.polRoot in Roots(ws) then |ws| else |ws| + 1
  {
    if ws != [] {
      HeadRootFresh(ws);
      if ws[0].polRoot == c.polRoot {
        assert c.polRoot in Roots(ws);
      } else {
        PutConfigCount(ws[1..], c);
        assert c.polRoot in Roots(ws) <==> c.polRoot in Roots(ws[1..]);
      }
    }
  }

  /** `workspaces.delete(root)`. */
  function RemoveRoot(ws: seq<WorkspaceConfig>, root: string): (r: seq<WorkspaceConfig>)
    ensures forall d :: d in r <==> d in ws && d.polRoot != root
  {
    if ws == [] then []
    else
      assert forall d :: d in ws <==> d == ws[0] || d in ws[1..];
      if ws[0].polRoot == root then RemoveRoot(ws[1..], root) else [ws[0]] + RemoveRoot(ws[1..], root)
  }

  /** Removing a root keeps the others distinct. */
  lemma {:induction false} RemoveRootDistinct(ws: seq<WorkspaceConfig>, root: string)
    requires DistinctRoots(ws)
    ensures DistinctRoots(RemoveRoot(ws, root))
  {
    if ws != [] {
      HeadRootFresh(ws);
      RemoveRootDistinct(ws[1..], root);
      if ws[0].polRoot != root {
        ConsDistinct(ws[0], RemoveRoot(ws[1..], root));
      }
    }
  }

  /** Removing a root shrinks the cache by one when the root is cached, and leaves it alone otherwise. */
  lemma {:induction false} RemoveRootCount(ws: seq<WorkspaceConfig>, root: string)
    requires DistinctRoots(ws)
    ensures root !in Roots(ws) ==> RemoveRoot(ws, root) == ws
    ensures root in Roots(ws) ==> |RemoveRoot(ws, root)| == |ws| - 1
  {
    if ws != [] {
      RemoveRootCount(ws[1..], root);
      HeadRootFresh(ws);
      if ws[0].polRoot == root {
        RemoveRootCount(ws[1..], root);
        assert root !in Roots(ws[1..]);
      } else {
        assert root in Roots(ws) <==> root in Roots(ws[1..]);
      }
    }
  }

  /** Removing the first entry's root leaves the rest. */
  lemma RemoveFirstRoot(ws: seq<WorkspaceConfig>)
    requires DistinctRoots(ws) && ws != []
    ensures RemoveRoot(ws, ws[0].polRoot) == ws[1..]
  {
    HeadRootFresh(ws);
    RemoveRootCount(ws[1..], ws[0].polRoot);
  }

  // ---------------------------------------------------------------------
  // Workspace._find
  // ---------------------------------------------------------------------

  /** The outcome of the `try` block for one directory. */
  datatype Probe = Found(config: WorkspaceConfig) | Skipped | MissingKey

  /** The parsed ecompile.cfg of a directory that has a pol.cfg, or None when the `try` block fails before it. */
  function CfgAt(fs: FileSystem, dir: string): Option<CfgMap>
  {
    if !fs.hasPolCfg(dir) || fs.ecompileCfg(dir).Failure? then None
    else Some(ParseLines(WorkspacePaths.SplitRuns(fs.ecompileCfg(dir).value)))
  }

  /** ModuleDirectory, IncludeDirectory and PolScriptRoot are all set. */
  predicate HasRequiredKeys(cfg: CfgMap)
  {
    Truthy(FirstValue(cfg, "moduledirectory")) && Truthy(FirstValue(cfg, "includedirectory")) &&
    Truthy(FirstValue(cfg, "polscriptroot"))
  }

  /** The configuration of a POL root: every configured directory resolved against the root. */
  function ConfigOf(polRoot: string, cfg: CfgMap, resolveFrom: (string, string) -> string): WorkspaceConfig
    requires HasRequiredKeys(cfg)
  {
    var roots := if "packageroot" in cfg then cfg["packageroot"] else [];
    WorkspaceConfig(
      polRoot,
      resolveFrom(polRoot, cfg["moduledirectory"][0]),
      resolveFrom(polRoot, cfg["includedirectory"][0]),
      resolveFrom(polRoot, cfg["polscriptroot"][0]),
      seq(|roots|, i requires 0 <= i < |roots| => resolveFrom(polRoot, roots[i])))
  }

  /** One directory's `try` block: the resolved directory becomes the root. */
  function ProbeDir(fs: FileSystem, dir: string): Probe
  {
    var cfg := CfgAt(fs, dir);
    if cfg.None? then Skipped
    else if !HasRequiredKeys(cfg.value) then MissingKey
    else Found(ConfigOf(fs.resolve(dir), cfg.value, fs.resolveFrom))
  }

  /** The probe of every directory under one file system. */
  function Prober(fs: FileSystem): string -> Probe
  {
    d => ProbeDir(fs, d)
  }

  /**
   * The directory walk with the intended behaviour: a directory that is
   * skipped or lacks a key moves the search to its dirname, and the walk
   * stops at the dirname fixpoint.
   */
  function Walk(probe: string -> Probe, dir: string): Option<WorkspaceConfig>
    decreases WorkspacePaths.DirMeasure(dir)
  {
    if probe(dir).Found? then Some(probe(dir).config)
    else if WorkspacePaths.Dirname(dir) == dir then None
    else Walk(probe, WorkspacePaths.Dirname(dir))
  }

  /** No directory of `a` has a configuration. */
  predicate NoneFound(probe: string -> Probe, a: seq<string>)
  {
    forall d :: d in a ==> !probe(d).Found?
  }

  /** No configuration in `[x] + b`: none at `x` and none in `b`. */
  lemma NoneFoundCons(probe: string -> Probe, x: string, a: seq<string>, b: seq<string>)
    requires a == [x] + b
    ensures NoneFound(probe, a) <==> !probe(x).Found? && NoneFound(probe, b)
  {
    assert x in a;
    assert forall d :: d in b ==> d in a;
  }

  /** The walk finds nothing exactly when no ancestor has a configuration. */
  lemma {:induction false} WalkNoneIff(probe: string -> Probe, dir: string)
    decreases WorkspacePaths.DirMeasure(dir)
    ensures Walk(probe, dir).None? <==> NoneFound(probe, WorkspacePaths.Ancestors(dir))
  {
    var a := WorkspacePaths.Ancestors(dir);
    var next := WorkspacePaths.Dirname(dir);
    if probe(dir).Found? {
      assert a[0] in a;
    } else if next == dir {
      assert a == [dir];
    } else {
      WalkNoneIff(probe, next);
      WorkspacePaths.AncestorsCons(dir);
      NoneFoundCons(probe, dir, a, WorkspacePaths.Ancestors(next));
    }
  }

  /** The first configuration of `b` at `k` is the first of `[x] + b`, at `k + 1`, when `x` has none. */
  lemma FirstFoundCons(probe: string -> Probe, x: string, a: seq<string>, b: seq<string>, k: nat, c: WorkspaceConfig)
    requires a == [x] + b && !probe(x).Found?
    requires k < |b| && probe(b[k]) == Found(c) && NoneFound(probe, b[..k])
    ensures k + 1 < |a| && probe(a[k + 1]) == Found(c) && NoneFound(probe, a[..k + 1])
  {
    assert a[k + 1] == b[k];
    NoneFoundCons(probe, x, a[..k + 1], b[..k]);
  }

  /** What the walk finds is the configuration of the first ancestor that has one. */
  lemma {:induction false} WalkFindsFirst(probe: string -> Probe, dir: string)
    decreases WorkspacePaths.DirMeasure(dir)
    requires Walk(probe, dir).Some?
    ensures exists k :: 0 <= k < |WorkspacePaths.Ancestors(dir)| &&
              probe(WorkspacePaths.Ancestors(dir)[k]) == Found(Walk(probe, dir).value) &&
              NoneFound(probe, WorkspacePaths.Ancestors(dir)[..k])
  {
    var a := WorkspacePaths.Ancestors(dir);
    var next := WorkspacePaths.Dirname(dir);
    if probe(dir).Found? {
      assert probe(a[0]) == Found(Walk(probe, dir).value);
      assert NoneFound(probe, a[..0]);
    } else {
      WalkFindsFirst(probe, next);
      var b := WorkspacePaths.Ancestors(next);
      var c := Walk(probe, next).value;
      var k :| 0 <= k < |b| && probe(b[k]) == Found(c) && NoneFound(probe, b[..k]);
      WorkspacePaths.AncestorsCons(dir);
      FirstFoundCons(probe, dir, a, b, k, c);
      assert 0 <= k + 1 < |a| && probe(a[k + 1]) == Found(Walk(probe, dir).value) && NoneFound(probe, a[..k + 1]);
    }
  }

  /** The state of the `while (true)` loop after some steps, as written. */
  datatype Run = Finished(result: Option<WorkspaceConfig>) | StillRunning

  /**
   * The loop as written: the `continue` taken when a key is missing skips
   * `path = dirname(path)`, so the same directory is tried again.
   */
  function RunAsWritten(probe: string -> Probe, path: string, fuel: nat): Run
    decreases fuel
  {
    if fuel == 0 then StillRunning
    else if probe(path).Found? then Finished(Some(probe(path).config))
    else if probe(path).MissingKey? then RunAsWritten(probe, path, fuel - 1)
    else if WorkspacePaths.Dirname(path) == path then Finished(None)
    else RunAsWritten(probe, WorkspacePaths.Dirname(path), fuel - 1)
  }

  /** Once a directory lacks a key, the loop as written never finishes, however many steps it takes. */
  lemma {:induction false} MissingKeyNeverFinishes(probe: string -> Probe, path: string, fuel: nat)
    requires probe(path).MissingKey?
    ensures RunAsWritten(probe, path, fuel) == StillRunning
  {
    if fuel > 0 {
      MissingKeyNeverFinishes(probe, path, fuel - 1);
    }
  }

  /** No directory of `a` lacks a key. */
  predicate NoMissingKey(probe: string -> Probe, a: seq<string>)
  {
    forall d :: d in a ==> !probe(d).MissingKey?
  }

  /** Where no ancestor lacks a key, the loop as written finishes with the intended result. */
  lemma {:induction false} AsWrittenAgreesWithoutMissingKeys(probe: string -> Probe, path: string, fuel: nat)
    decreases WorkspacePaths.DirMeasure(path)
    requires NoMissingKey(probe, WorkspacePaths.Ancestors(path))
    requires fuel >= |WorkspacePaths.Ancestors(path)|
    ensures RunAsWritten(probe, path, fuel) == Finished(Walk(probe, path))
  {
    var next := WorkspacePaths.Dirname(path);
    if next != path && !probe(path).Found? {
      MovesUp(probe, path, fuel);
      AsWrittenAgreesWithoutMissingKeys(probe, next, fuel - 1);
    } else {
      Stops(probe, path, fuel);
    }
  }

  /**
   * A directory with no configuration below the top: both loops move to
   * its dirname, where no ancestor lacks a key and the fuel still covers
   * the ancestors.
   */
  lemma MovesUp(probe: string -> Probe, path: string, fuel: nat)
    requires WorkspacePaths.Dirname(path) != path && !probe(path).Found?
    requires NoMissingKey(probe, WorkspacePaths.Ancestors(path)) && fuel >= |WorkspacePaths.Ancestors(path)|
    ensures var next := WorkspacePaths.Dirname(path);
      fuel >= 1 && NoMissingKey(probe, WorkspacePaths.Ancestors(next)) && fuel - 1 >= |WorkspacePaths.Ancestors(next)| &&
      RunAsWritten(probe, path, fuel) == RunAsWritten(probe, next, fuel - 1) &&
      Walk(probe, path) == Walk(probe, next)
  {
    var a, b := WorkspacePaths.Ancestors(path), WorkspacePaths.Ancestors(WorkspacePaths.Dirname(path));
    WorkspacePaths.AncestorsCons(path);
    NoMissingKeyCons(probe, path, a, b);
  }

  /** A directory with a configuration, or the top one, ends both loops alike. */
  lemma Stops(probe: string -> Probe, path: string, fuel: nat)
    requires probe(path).Found? || WorkspacePaths.Dirname(path) == path
    requires NoMissingKey(probe, WorkspacePaths.Ancestors(path)) && fuel >= |WorkspacePaths.Ancestors(path)|
    ensures RunAsWritten(probe, path, fuel) == Finished(Walk(probe, path))
  {
    var a := WorkspacePaths.Ancestors(path);
    assert a[0] in a;
  }

  /** No missing key in `[x] + b`: none at `x` and none in `b`. */
  lemma NoMissingKeyCons(probe: string -> Probe, x: string, a: seq<string>, b: seq<string>)
    requires a == [x] + b && NoMissingKey(probe, a)
    ensures !probe(x).MissingKey? && NoMissingKey(probe, b)
  {
    assert x in a;
    assert forall d :: d in b ==> d in a;
  }

  /** Every directory probes as lacking a key, so the intended walk ends with nothing. */
  lemma {:induction false} AllMissingFindsNothing(probe: string -> Probe, dir: string)
    decreases WorkspacePaths.DirMeasure(dir)
    requires forall d :: probe(d).MissingKey?
    ensures Walk(probe, dir).None?
  {
    if WorkspacePaths.Dirname(dir) != dir {
      AllMissingFindsNothing(probe, WorkspacePaths.Dirname(dir));
    }
  }

  /** An empty ecompile.cfg sets no key at all. */
  lemma EmptyCfgMissesKeys(fs: FileSystem, dir: string)
    requires fs.hasPolCfg(dir) && fs.ecompileCfg(dir) == Success("")
    ensures ProbeDir(fs, dir).MissingKey?
  {
    assert WorkspacePaths.SplitRuns("") == [""];
    assert RunEnd("", 0, IsKeyChar) == 0;
    assert MatchCfgLine("").None?;
    assert ParseLines([""]) == map[];
  }

  /**
   * A POL tree whose every directory has a pol.cfg and an empty
   * ecompile.cfg: the loop as written spins on the first directory, while
   * the intended walk reaches the root and gives up.
   */
  lemma EmptyCfgHangs(path: string, fuel: nat)
    ensures var fs := FileSystem(d => true, d => Success(""), d => true, d => d, (b, p) => p);
      RunAsWritten(Prober(fs), path, fuel) == StillRunning && Walk(Prober(fs), path).None?
  {
    var fs := FileSystem(d => true, d => Success(""), d => true, d => d, (b, p) => p);
    forall d ensures Prober(fs)(d).MissingKey? {
      EmptyCfgMissesKeys(fs, d);
    }
    MissingKeyNeverFinishes(Prober(fs), path, fuel);
    AllMissingFindsNothing(Prober(fs), path);
  }

  /** The loop over the cache's entries in insertion order. */
  method CachedFor(ws: seq<WorkspaceConfig>, path: string) returns (r: Option<WorkspaceConfig>)
    ensures r == FirstPrefix(ws, path)
  {
    for i := 0 to |ws|
      invariant FirstPrefix(ws, path) == FirstPrefix(ws[i..], path)
    {
      assert ws[i..][1..] == ws[i + 1..];
      if StartsWith(path, ws[i].polRoot) {
        return Some(ws[i]);
      }
    }
    return None;
  }

  /** The `try` block for one directory, reading the cfg file through `Load`. */
  method TryDirectory(fs: FileSystem, dir: string) returns (probe: Probe)
    ensures probe == ProbeDir(fs, dir)
  {
    if !fs.hasPolCfg(dir) {
      ProbeSkipped(fs, dir);
      return Skipped;
    }
    var cfg := Load(fs.ecompileCfg(dir), true);
    if cfg.Failure? {
      ProbeSkipped(fs, dir);
      return Skipped;
    }
    ProbeParsed(fs, dir, cfg.value);
    var polRoot := fs.resolve(dir);
    var md := FirstValue(cfg.value, "moduledirectory");
    var id := FirstValue(cfg.value, "includedirectory");
    var ps := FirstValue(cfg.value, "polscriptroot");
    if !Truthy(md) || !Truthy(id) || !Truthy(ps) {
      return MissingKey;
    }
    probe := Found(ConfigOf(polRoot, cfg.value, fs.resolveFrom));
  }

  /** A directory without a pol.cfg, or whose ecompile.cfg cannot be read, is skipped. */
  lemma ProbeSkipped(fs: FileSystem, dir: string)
    requires !fs.hasPolCfg(dir) || fs.ecompileCfg(dir).Failure?
    ensures ProbeDir(fs, dir) == Skipped
  {
  }

  /** A directory whose ecompile.cfg parses as `cfg` is found or lacks a key, by `cfg` alone. */
  lemma ProbeParsed(fs: FileSystem, dir: string, cfg: CfgMap)
    requires fs.hasPolCfg(dir) && fs.ecompileCfg(dir).Success?
    requires cfg == ParseLines(WorkspacePaths.SplitRuns(fs.ecompileCfg(dir).value))
    ensures ProbeDir(fs, dir) == if HasRequiredKeys(cfg) then Found(ConfigOf(fs.resolve(dir), cfg, fs.resolveFrom)) else MissingKey
  {
  }

  /** `Workspace`'s static cache of workspaces, keyed by POL root. */
  class WorkspaceCache {
    var workspaces: seq<WorkspaceConfig>

    predicate Valid()
      reads this
    {
      DistinctRoots(workspaces)
    }

    constructor()
      ensures Valid() && workspaces == []
    {
      workspaces := [];
    }

    /** `Workspace.count`, the size of the Map. */
    function Count(): (n: nat)
      reads this
      ensures Valid() ==> n == |Roots(workspaces)|
    {
      DistinctRootsCountIfValid(workspaces);
      |workspaces|
    }

    /**
     * `_find` with a missing key moving the search to the parent directory,
     * as intended: a cached root that is a prefix of `path` answers at once;
     * otherwise the first ancestor with a configuration is resolved and
     * cached.
     */
    method Find(path: string, fs: FileSystem) returns (r: Option<WorkspaceConfig>)
      requires Valid()
      modifies this
      ensures Valid()
      ensures FirstPrefix(old(workspaces), path).Some? ==>
                r == FirstPrefix(old(workspaces), path) && workspaces == old(workspaces)
      ensures FirstPrefix(old(workspaces), path).None? ==>
                r == Walk(Prober(fs), path) &&
                workspaces == (if r.Some? then PutConfig(old(workspaces), r.value) else old(workspaces))
    {
      r := CachedFor(workspaces, path);
      if r.Some? {
        return;
      }
      var dir := path;
      while true
        invariant Walk(Prober(fs), dir) == Walk(Prober(fs), path)
        invariant workspaces == old(workspaces)
        decreases WorkspacePaths.DirMeasure(dir)
      {
        var probe := TryDirectory(fs, dir);
        if probe.Found? {
          PutConfigDistinct(workspaces, probe.config);
          workspaces := PutConfig(workspaces, probe.config);
          return Some(probe.config);
        }
        var next := WorkspacePaths.Dirname(dir);
        if next == dir {
          return None;
        }
        dir := next;
      }
    }

    /** `workspace.close()`: the root leaves the cache. */
    method Close(polRoot: string)
      requires Valid()
      modifies this
      ensures Valid()
      ensures workspaces == RemoveRoot(old(workspaces), polRoot)
      ensures polRoot !in Roots(workspaces)
    {
      RemoveRootDistinct(workspaces, polRoot);
      workspaces := RemoveRoot(workspaces, polRoot);
    }

    /** `Workspace.closeAll`: every entry is visited and closed, which empties the cache. */
    method CloseAll()
      requires Valid()
      modifies this
      ensures Valid() && workspaces == []
    {
      var entries := workspaces;
      for i := 0 to |entries|
        invariant workspaces == entries[i..]
        invariant Valid()
      {
        RemoveFirstRoot(workspaces);
        Close(entries[i].polRoot);
        assert entries[i..][1..] == entries[i + 1..];
      }
    }
  }

  lemma DistinctRootsCountIfValid(ws: seq<WorkspaceConfig>)
    ensures DistinctRoots(ws) ==> |Roots(ws)| == |ws|
  {
    if DistinctRoots(ws) {
      DistinctRootsCount(ws);
    }
  }
}
