/**
 * The path and package bookkeeping of the TypeScript workspace
 * (server/src/workspace.ts): set differences between configured roots,
 * the upward search of the workspace cache along `dirname`, module and
 * inc lookup, inc completion items, and the per-package
 * `pkg.cfg` reader.
 *
 * JavaScript `Set`s iterate in insertion order, and so do plain objects
 * for keys that do not look like array indices (those come first, in
 * ascending order); both are modelled as sequences in insertion order, and
 * a package dictionary is a sequence of entries with distinct keys. Only
 * own keys are modelled, not those inherited from `Object.prototype`.
 * File-system access is an oracle parameter.
 */
module WorkspacePaths {
  import opened Common
  import EscriptVisitor

  // ---------------------------------------------------------------------
  // differences(old, now)
  // ---------------------------------------------------------------------

  /** The elements of `xs` not in `ys`, in the order of `xs`. */
  function Without(xs: seq<string>, ys: seq<string>): (r: seq<string>)
    ensures forall x :: x in r <==> x in xs && x !in ys
  {
    if xs == [] then []
    else
      assert xs == xs[..|xs| - 1] + [xs[|xs| - 1]];
      Without(xs[..|xs| - 1], ys) + (if xs[|xs| - 1] !in ys then [xs[|xs| - 1]] else [])
  }

  /** The elements of `xs` also in `ys`, in the order of `xs`. */
  function Within(xs: seq<string>, ys: seq<string>): (r: seq<string>)
    ensures forall x :: x in r <==> x in xs && x in ys
  {
    if xs == [] then []
    else
      assert xs == xs[..|xs| - 1] + [xs[|xs| - 1]];
      Within(xs[..|xs| - 1], ys) + (if xs[|xs| - 1] in ys then [xs[|xs| - 1]] else [])
  }

  /** `differences`: adds and same walk `now`, then dels walks `old`. */
  method Differences(prior: seq<string>, now: seq<string>) returns (adds: seq<string>, dels: seq<string>, same: seq<string>)
    ensures adds == Without(now, prior)
    ensures same == Within(now, prior)
    ensures dels == Without(prior, now)
  {
    adds, dels, same := [], [], [];
    var i := 0;
    while i < |now|
      invariant 0 <= i <= |now|
      invariant adds == Without(now[..i], prior)
      invariant same == Within(now[..i], prior)
    {
      SplitStep(now, prior, i);
      if now[i] in prior {
        same := same + [now[i]];
      } else {
        adds := adds + [now[i]];
      }
      i := i + 1;
    }
    AllTaken(now, i);
    var j := 0;
    while j < |prior|
      invariant 0 <= j <= |prior|
      invariant dels == Without(prior[..j], now)
    {
      SplitStep(prior, now, j);
      if prior[j] !in now {
        dels := dels + [prior[j]];
      }
      j := j + 1;
    }
    AllTaken(prior, j);
  }

  /** One more element of `xs` goes to exactly one of `Without` and `Within`. */
  lemma SplitStep(xs: seq<string>, ys: seq<string>, i: nat)
    requires i < |xs|
    ensures Without(xs[..i + 1], ys) == Without(xs[..i], ys) + (if xs[i] !in ys then [xs[i]] else [])
    ensures Within(xs[..i + 1], ys) == Within(xs[..i], ys) + (if xs[i] in ys then [xs[i]] else [])
  {
    assert xs[..i + 1][..i] == xs[..i];
  }

  /** Every element of `now` lands in exactly one of adds and same. */
  lemma {:induction false} SplitCount(xs: seq<string>, ys: seq<string>)
    ensures |Without(xs, ys)| + |Within(xs, ys)| == |xs|
  {
    if xs != [] {
      SplitCount(xs[..|xs| - 1], ys);
    }
  }

  /**
   * Adding the adds and deleting the dels turns the prior root set into the
   * new one, which is what the caller of `differences` relies on.
   */
  lemma ApplyDifferences(prior: seq<string>, now: seq<string>)
    ensures (set x | x in prior && x !in Without(prior, now)) + (set x | x in Without(now, prior))
         == (set x | x in now)
  {
  }

  // ---------------------------------------------------------------------
  // path.dirname (POSIX) and findSync
  // ---------------------------------------------------------------------

  /**
   * The last '/' at an index >= 1 and below `i` that has a non-slash
   * character after it, scanning down as `path.dirname` does.
   */
  function DirnameEnd(p: string, i: nat, matchedSlash: bool): (r: Option<nat>)
    requires i <= |p|
    ensures r.Some? ==> 1 <= r.value < i && p[r.value] == '/'
  {
    if i <= 1 then None
    else if p[i - 1] == '/' then
      (if !matchedSlash then Some(i - 1) else DirnameEnd(p, i - 1, matchedSlash))
    else DirnameEnd(p, i - 1, false)
  }

  /** A measure that every step of `Dirname` that moves makes smaller. */
  function DirMeasure(p: string): nat
  {
    if p == "." || p == "/" then 0 else if p == "//" then 1 else |p| + 1
  }

  /** Node's POSIX `path.dirname`. */
  function Dirname(p: string): (r: string)
    ensures r == p || DirMeasure(r) < DirMeasure(p)
  {
    if p == "" then "."
    else
      var e := DirnameEnd(p, |p|, true);
      if e.None? then (if p[0] == '/' then "/" else ".")
      else if p[0] == '/' && e.value == 1 then
        assert |p| >= 3 by { DirnameEndHasSuccessor(p, |p|, true); }
        "//"
      else p[..e.value]
  }

  lemma {:induction false} DirnameEndHasSuccessor(p: string, i: nat, matchedSlash: bool)
    requires i <= |p| && (!matchedSlash ==> i < |p|)
    requires DirnameEnd(p, i, matchedSlash).Some?
    ensures DirnameEnd(p, i, matchedSlash).value + 1 < |p|
  {
    if i > 1 && p[i - 1] == '/' && matchedSlash {
      DirnameEndHasSuccessor(p, i - 1, matchedSlash);
    } else if i > 1 && p[i - 1] != '/' {
      DirnameEndHasSuccessor(p, i - 1, false);
    }
  }

  /** The uri and its dirnames, up to the first fixpoint. */
  function Ancestors(u: string): (r: seq<string>)
    decreases DirMeasure(u)
    ensures |r| >= 1 && r[0] == u
    ensures Dirname(r[|r| - 1]) == r[|r| - 1]
  {
    if Dirname(u) == u then [u] else [u] + Ancestors(Dirname(u))
  }

  /** Below a directory that moves, its ancestors are it and those of its dirname. */
  lemma AncestorsCons(u: string)
    requires Dirname(u) != u
    ensures Ancestors(u) == [u] + Ancestors(Dirname(u))
    ensures Ancestors(u)[1..] == Ancestors(Dirname(u))
  {
  }

  /** What `findSync` returns, one directory at a time. */
  function FindFrom<W>(cache: map<string, W>, u: string, recurse: bool): Option<W>
    decreases DirMeasure(u)
  {
    if u in cache then Some(cache[u])
    else if !recurse || Dirname(u) == u then None
    else FindFrom(cache, Dirname(u), recurse)
  }

  /** `WorkspaceFinder.findSync`, over the finder's workspace cache. */
  method FindSync<W>(cache: map<string, W>, uri: string, recurse: bool) returns (result: Option<W>)
    ensures result == FindFrom(cache, uri, recurse)
    ensures !recurse ==> result == (if uri in cache then Some(cache[uri]) else None)
  {
    result := None;
    var u := uri;
    var done := false;
    while !done
      invariant done ==> result == FindFrom(cache, uri, recurse)
      invariant !done ==> result.None? && FindFrom(cache, u, recurse) == FindFrom(cache, uri, recurse)
      invariant !done && !recurse ==> u == uri
      decreases if done then 0 else DirMeasure(u) + 1
    {
      if u in cache {
        result := Some(cache[u]);
      }
      var last := u;
      u := Dirname(u);
      done := !(result.None? && recurse && last != u);
    }
  }

  /** With recursion, the search returns the first cached ancestor. */
  lemma {:induction false} FindFirstCachedAncestor<W>(cache: map<string, W>, u: string)
    decreases DirMeasure(u)
    ensures var r, a := FindFrom(cache, u, true), Ancestors(u);
      (r.None? <==> forall k :: 0 <= k < |a| ==> a[k] !in cache) &&
      (r.Some? ==> exists k :: 0 <= k < |a| && a[k] in cache && r.value == cache[a[k]] &&
                     forall j :: 0 <= j < k ==> a[j] !in cache)
  {
    var a := Ancestors(u);
    if u in cache {
      assert a[0] in cache;
    } else if Dirname(u) != u {
      FindFirstCachedAncestor(cache, Dirname(u));
      var b := Ancestors(Dirname(u));
      AncestorsCons(u);
      NoneCachedCons(cache, u, a, b);
      if FindFrom(cache, u, true).Some? {
        var k :| 0 <= k < |b| && b[k] in cache && FindFrom(cache, Dirname(u), true).value == cache[b[k]] &&
          forall j :: 0 <= j < k ==> b[j] !in cache;
        FirstCachedCons(cache, u, a, b, k);
        assert 0 <= k + 1 < |a| && a[k + 1] in cache && FindFrom(cache, u, true).value == cache[a[k + 1]];
      }
    } else {
      assert a == [u];
    }
  }

  /** When `x` is not cached, nothing of `[x] + b` is cached exactly when nothing of `b` is. */
  lemma NoneCachedCons<W>(cache: map<string, W>, x: string, a: seq<string>, b: seq<string>)
    requires a == [x] + b && x !in cache
    ensures (forall k :: 0 <= k < |a| ==> a[k] !in cache) <==> (forall k :: 0 <= k < |b| ==> b[k] !in cache)
  {
    assert forall k :: 0 <= k < |b| ==> a[k + 1] == b[k];
    assert forall k :: 0 < k < |a| ==> a[k] == b[k - 1];
  }

  /** The first cached entry of `b`, at `k`, is the first of `[x] + b`, at `k + 1`, when `x` is not cached. */
  lemma FirstCachedCons<W>(cache: map<string, W>, x: string, a: seq<string>, b: seq<string>, k: nat)
    requires a == [x] + b && x !in cache
    requires k < |b| && b[k] in cache && forall j :: 0 <= j < k ==> b[j] !in cache
    ensures k + 1 < |a| && a[k + 1] == b[k] && forall j :: 0 <= j < k + 1 ==> a[j] !in cache
  {
    forall j | 0 <= j < k + 1 ensures a[j] !in cache {
      if j > 0 { assert a[j] == b[j - 1]; }
    }
  }

  // ---------------------------------------------------------------------
  // Packages and modules
  // ---------------------------------------------------------------------

  datatype PackageInfo = PackageInfo(uri: string, enabled: bool, name: string, includes: seq<string>)

  /** One key of a package dictionary with its value. */
  datatype PackageEntry = PackageEntry(key: string, info: PackageInfo)

  predicate DistinctKeys(ps: seq<PackageEntry>)
  {
    forall i, j :: 0 <= i < j < |ps| ==> ps[i].key != ps[j].key
  }

  function Keys(ps: seq<PackageEntry>): (r: set<string>)
    ensures forall i :: 0 <= i < |ps| ==> ps[i].key in r
    ensures forall k :: k in r ==> exists i :: 0 <= i < |ps| && ps[i].key == k
  {
    set i | 0 <= i < |ps| :: ps[i].key
  }

  /** `packages[name]`: the value stored under exactly that key. */
  function Lookup(ps: seq<PackageEntry>, name: string): (r: Option<PackageInfo>)
    ensures r.Some? <==> name in Keys(ps)
    ensures r.Some? ==> PackageEntry(name, r.value) in ps
  {
    if ps == [] then None
    else if ps[0].key == name then Some(ps[0].info)
    else
      assert forall i :: 0 < i < |ps| ==> ps[i] == ps[1..][i - 1];
      Lookup(ps[1..], name)
  }

  /** `packages[name] = info`: an existing key keeps its place, a new key goes last. */
  function PutPackage(ps: seq<PackageEntry>, name: string, info: PackageInfo): (r: seq<PackageEntry>)
    ensures Lookup(r, name) == Some(info)
    ensures forall k :: k != name ==> Lookup(r, k) == Lookup(ps, k)
  {
    if ps == [] then [PackageEntry(name, info)]
    else if ps[0].key == name then [PackageEntry(name, info)] + ps[1..]
    else
      var r := [ps[0]] + PutPackage(ps[1..], name, info);
      assert r[1..] == PutPackage(ps[1..], name, info);
      r
  }

  /** Storing under a key adds just that key, and keys stay distinct. */
  lemma {:induction false} PutPackageKeys(ps: seq<PackageEntry>, name: string, info: PackageInfo)
    ensures Keys(PutPackage(ps, name, info)) == Keys(ps) + {name}
    ensures DistinctKeys(ps) ==> DistinctKeys(PutPackage(ps, name, info))
  {
    var r := PutPackage(ps, name, info);
    if ps == [] {
      KeysCons(r);
    } else if ps[0].key != name {
      var rest := PutPackage(ps[1..], name, info);
      PutPackageKeys(ps[1..], name, info);
      KeysCons(ps);
      assert r == [ps[0]] + rest;
      KeysOfCons(ps[0], rest);
      InsertBehind(Keys(r), Keys(ps), Keys(rest), Keys(ps[1..]), ps[0].key, name);
    } else {
      KeysCons(ps);
      assert r == [PackageEntry(name, info)] + ps[1..];
      KeysOfCons(PackageEntry(name, info), ps[1..]);
    }
  }

  /** Set algebra for a key put behind the first one. */
  lemma InsertBehind<T>(r: set<T>, s: set<T>, rest: set<T>, tail: set<T>, x: T, y: T)
    requires r == {x} + rest && rest == tail + {y} && s == {x} + tail
    ensures r == s + {y}
  {
  }

  /** The keys of `[e] + rest`, as `KeysCons` gives them. */
  lemma KeysOfCons(e: PackageEntry, rest: seq<PackageEntry>)
    ensures Keys([e] + rest) == {e.key} + Keys(rest)
    ensures DistinctKeys([e] + rest) <==> e.key !in Keys(rest) && DistinctKeys(rest)
  {
    var r := [e] + rest;
    KeysCons(r);
    assert r[1..] == rest;
  }

  /** The keys of a non-empty dictionary: its first key and the rest. */
  lemma KeysCons(ps: seq<PackageEntry>)
    requires ps != []
    ensures Keys(ps) == {ps[0].key} + Keys(ps[1..])
    ensures DistinctKeys(ps) <==> ps[0].key !in Keys(ps[1..]) && DistinctKeys(ps[1..])
  {
    assert forall i :: 0 < i < |ps| ==> ps[i] == ps[1..][i - 1];
    if ps[0].key !in Keys(ps[1..]) && DistinctKeys(ps[1..]) {
      forall i, j | 0 <= i < j < |ps| ensures ps[i].key != ps[j].key {
        if i > 0 {
          assert ps[1..][i - 1].key != ps[1..][j - 1].key;
        } else {
          assert ps[j].key in Keys(ps[1..]);
        }
      }
    }
  }

  /** `locateModule`: module names are keyed in lower case. */
  function LocateModule(modules: map<string, string>, name: string): (r: Option<string>)
    ensures r.Some? <==> Lower(name) in modules
    ensures r.Some? ==> r.value == modules[Lower(name)]
    ensures forall other :: EqualsIgnoreCase(other, name) ==>
      r == (if Lower(other) in modules then Some(modules[Lower(other)]) else None)
  {
    if Lower(name) in modules then Some(modules[Lower(name)]) else None
  }

  // ---------------------------------------------------------------------
  // locateInclude
  // ---------------------------------------------------------------------

  /** Where an inc is looked for, or the package name that was not found. */
  datatype IncludeSearch = UnknownPackage(pkgName: string) | Search(roots: seq<string>, spec: string)

  /** The lowercased package name and the rest of a ":pkg:file" spec, if it has that form. */
  function PackageSpec(spec: string): (r: Option<(string, string)>)
    ensures r.Some? <==> StartsWith(spec, ":") && IndexOfFrom(spec, ':', 1).Some?
    ensures r.Some? ==> (exists c :: 1 <= c < |spec| && spec[c] == ':' &&
                            r.value == (Lower(spec[1..c]), spec[c + 1..]) && forall k :: 1 <= k < c ==> spec[k] != ':')
  {
    if StartsWith(spec, ":") then
      var c := IndexOfFrom(spec, ':', 1);
      if c.Some? then Some((Lower(spec[1..c.value]), spec[c.value + 1..])) else None
    else None
  }

  /** The ".inc" suffix `locateInclude` adds unless the extension already is one. */
  function WithInc(spec: string): (r: string)
    ensures EndsWith(Lower(EscriptVisitor.TrimTrailingSlashes(r)), ".inc")
    ensures StartsWith(r, spec)
  {
    if Lower(EscriptVisitor.Extname(spec)) != ".inc" then IncAppended(spec); spec + ".inc"
    else IncKept(spec); spec
  }

  lemma IncAppended(spec: string)
    ensures EndsWith(Lower(spec + ".inc"), ".inc")
    ensures EscriptVisitor.TrimTrailingSlashes(spec + ".inc") == spec + ".inc"
    ensures StartsWith(spec + ".inc", spec)
  {
    var r := spec + ".inc";
    assert r[|r| - 1] == 'c';
    LowerAppend(spec, ".inc");
    var l := Lower(".inc");
    assert l[0] == '.' && l[1] == 'i' && l[2] == 'n' && l[3] == 'c';
    assert l == ".inc";
    assert Lower(r)[|r| - 4..] == l;
    assert r[..|spec|] == spec;
  }

  lemma IncKept(spec: string)
    requires Lower(EscriptVisitor.Extname(spec)) == ".inc"
    ensures EndsWith(Lower(EscriptVisitor.TrimTrailingSlashes(spec)), ".inc")
  {
    ExtnameSuffix(spec);
    LowerSuffix(EscriptVisitor.TrimTrailingSlashes(spec), EscriptVisitor.Extname(spec));
  }

  /** The extension of a path is a suffix of the path once its trailing '/' are dropped. */
  lemma ExtnameSuffix(path: string)
    ensures EndsWith(EscriptVisitor.TrimTrailingSlashes(path), EscriptVisitor.Extname(path))
  {
    var t := EscriptVisitor.TrimTrailingSlashes(path);
    var b := EscriptVisitor.BaseStart(t);
    var base := t[b..];
    var e := EscriptVisitor.Extname(path);
    if e != [] {
      var dot := LastIndexWhere(base, c => c == '.');
      assert e == base[dot.value..];
      assert t[|t| - |e|..] == e;
    }
  }

  lemma LowerSuffix(s: string, e: string)
    requires EndsWith(s, e)
    ensures EndsWith(Lower(s), Lower(e))
  {
    assert Lower(s)[|s| - |e|..] == Lower(e);
  }

  /** The package stored under exactly `name` (as the source looks it up). */
  function IncludeSearchAsWritten(includeDirs: seq<string>, ps: seq<PackageEntry>, spec: string): (r: IncludeSearch)
    ensures r.UnknownPackage? <==> PackageSpec(spec).Some? && Lookup(ps, PackageSpec(spec).value.0).None?
  {
    var parts := PackageSpec(spec);
    if parts.None? then Search(includeDirs, WithInc(spec))
    else
      var pkg := Lookup(ps, parts.value.0);
      if pkg.None? then UnknownPackage(parts.value.0) else Search([pkg.value.uri], WithInc(parts.value.1))
  }

  /** The first package whose key matches `pkgName` regardless of case. */
  function LookupIgnoringCase(ps: seq<PackageEntry>, pkgName: string): (r: Option<PackageInfo>)
    ensures r.Some? <==> exists i :: 0 <= i < |ps| && Lower(ps[i].key) == Lower(pkgName)
    ensures r.Some? ==> (exists i :: 0 <= i < |ps| && Lower(ps[i].key) == Lower(pkgName) && ps[i].info == r.value &&
                            forall j :: 0 <= j < i ==> Lower(ps[j].key) != Lower(pkgName))
  {
    if ps == [] then None
    else if Lower(ps[0].key) == Lower(pkgName) then Some(ps[0].info)
    else
      var rest := LookupIgnoringCase(ps[1..], pkgName);
      assert forall i :: 0 < i < |ps| ==> ps[i] == ps[1..][i - 1];
      if rest.Some? then
        var i :| 0 <= i < |ps[1..]| && Lower(ps[1..][i].key) == Lower(pkgName) && ps[1..][i].info == rest.value &&
          forall j :: 0 <= j < i ==> Lower(ps[1..][j].key) != Lower(pkgName);
        assert Lower(ps[i + 1].key) == Lower(pkgName) && ps[i + 1].info == rest.value;
        rest
      else rest
  }

  /** The search with package names compared regardless of case. */
  function IncludeSearchOf(includeDirs: seq<string>, ps: seq<PackageEntry>, spec: string): (r: IncludeSearch)
    ensures r.UnknownPackage? <==> PackageSpec(spec).Some? && LookupIgnoringCase(ps, PackageSpec(spec).value.0).None?
    ensures PackageSpec(spec).None? ==> r == Search(includeDirs, WithInc(spec))
    ensures r.Search? ==> EndsWith(Lower(EscriptVisitor.TrimTrailingSlashes(r.spec)), ".inc")
  {
    var parts := PackageSpec(spec);
    if parts.None? then Search(includeDirs, WithInc(spec))
    else
      var pkg := LookupIgnoringCase(ps, parts.value.0);
      if pkg.None? then UnknownPackage(parts.value.0) else Search([pkg.value.uri], WithInc(parts.value.1))
  }

  /** A ":name:file" spec naming any stored package, in any case, is searched in that package. */
  lemma {:induction false} NamedPackageFound(includeDirs: seq<string>, ps: seq<PackageEntry>, i: nat, file: string)
    requires i < |ps| && ':' !in ps[i].key
    ensures var r := IncludeSearchOf(includeDirs, ps, ":" + ps[i].key + ":" + file);
      r.Search? && |r.roots| == 1 && r.spec == WithInc(file) &&
      exists j :: 0 <= j <= i && EqualsIgnoreCase(ps[j].key, ps[i].key) && r.roots == [ps[j].info.uri]
  {
    var name := ps[i].key;
    NamedSpec(name, file);
    LowerIdempotent(name);
    assert Lower(ps[i].key) == Lower(Lower(name));
  }

  /** A ":name:file" spec splits into the lowercased name and the file. */
  lemma NamedSpec(name: string, file: string)
    requires ':' !in name
    ensures PackageSpec(":" + name + ":" + file) == Some((Lower(name), file))
  {
    var spec := ":" + name + ":" + file;
    assert forall k :: 1 <= k < |name| + 1 ==> spec[k] == name[k - 1];
    assert spec[|name| + 1] == ':';
    IndexOfFromAt(spec, ':', 1, |name| + 1);
    assert spec[1..|name| + 1] == name;
    assert spec[|name| + 2..] == file;
  }

  lemma {:induction false} IndexOfFromAt(s: string, c: char, from: nat, at: nat)
    requires from <= at < |s| && s[at] == c && forall k :: from <= k < at ==> s[k] != c
    decreases at - from
    ensures IndexOfFrom(s, c, from) == Some(at)
  {
    if from < at {
      IndexOfFromAt(s, c, from + 1, at);
    }
  }

  /** What a `stat` of a candidate file reports: absent, a file, or something else. */
  datatype Stat = Missing | IsFile | NotAFile

  /** A joined candidate path: directory, location inside it, inc spec. */
  datatype Candidate = Candidate(dir: string, loc: string, spec: string)

  const IncludeLocations: seq<string> := [".", "./include"]

  /** One root: "." first, "./include" only when "." has nothing at that path. */
  function TryRoot(dir: string, spec: string, stat: Candidate -> Stat): (r: Option<Candidate>)
    ensures r.Some? ==> stat(r.value) == IsFile && r.value.dir == dir && r.value.spec == spec && r.value.loc in IncludeLocations
    ensures r.None? ==> stat(Candidate(dir, ".", spec)) != IsFile
    ensures r.None? && stat(Candidate(dir, ".", spec)) == Missing ==> stat(Candidate(dir, "./include", spec)) != IsFile
  {
    var here := stat(Candidate(dir, ".", spec));
    if here == IsFile then Some(Candidate(dir, ".", spec))
    else if here == NotAFile then None
    else if stat(Candidate(dir, "./include", spec)) == IsFile then Some(Candidate(dir, "./include", spec))
    else None
  }

  function FirstFile(roots: seq<string>, spec: string, stat: Candidate -> Stat): (r: Option<Candidate>)
    ensures r.Some? ==> stat(r.value) == IsFile && r.value.dir in roots && r.value.spec == spec
    ensures r.Some? ==> (exists i :: 0 <= i < |roots| && TryRoot(roots[i], spec, stat) == r &&
                            forall j :: 0 <= j < i ==> TryRoot(roots[j], spec, stat).None?)
    ensures r.None? <==> forall i :: 0 <= i < |roots| ==> TryRoot(roots[i], spec, stat).None?
  {
    if roots == [] then None
    else
      assert forall i :: 0 < i < |roots| ==> roots[i] == roots[1..][i - 1];
      var here := TryRoot(roots[0], spec, stat);
      if here.Some? then here
      else
        var rest := FirstFile(roots[1..], spec, stat);
        if rest.Some? then
          var i :| 0 <= i < |roots[1..]| && TryRoot(roots[1..][i], spec, stat) == rest &&
            forall j :: 0 <= j < i ==> TryRoot(roots[1..][j], spec, stat).None?;
          assert TryRoot(roots[i + 1], spec, stat) == rest;
          rest
        else rest
  }

  /** The location loop of one root, with its `break` on a non-file. */
  method SearchRoot(dir: string, spec: string, stat: Candidate -> Stat) returns (r: Option<Candidate>)
    ensures r == TryRoot(dir, spec, stat)
  {
    r := None;
    var i := 0;
    while i < |IncludeLocations|
      invariant 0 <= i <= |IncludeLocations|
      invariant r.None?
      invariant i > 0 ==> stat(Candidate(dir, ".", spec)) == Missing
      invariant i > 1 ==> stat(Candidate(dir, "./include", spec)) != IsFile
    {
      var c := Candidate(dir, IncludeLocations[i], spec);
      var s := stat(c);
      if s == IsFile {
        return Some(c);
      } else if s == NotAFile {
        return;
      }
      i := i + 1;
    }
  }

  // ---------------------------------------------------------------------
  // pkg.cfg lines
  // ---------------------------------------------------------------------

  /** `\s` over the characters a pkg.cfg line can hold once split at CR/LF runs. */
  predicate IsSpace(c: char)
  {
    c == ' ' || c == '\t' || c == '\U{B}' || c == '\U{C}'
  }

  predicate IsIdentStart(c: char)
  {
    'A' <= c <= 'Z' || 'a' <= c <= 'z' || c == '_'
  }

  predicate IsIdentChar(c: char)
  {
    IsIdentStart(c) || '0' <= c <= '9'
  }

  datatype KeyValue = KeyValue(key: string, value: string)

  /** `line.match(/^\s*([A-Za-z_][A-Za-z0-9_]+)\s+(.+)/)`, giving groups 1 and 2. */
  function MatchPkgLine(line: string): (r: Option<KeyValue>)
    ensures r.Some? ==> |r.value.key| >= 2 && IsIdentStart(r.value.key[0]) && |r.value.value| >= 1
  {
    var i0 := RunEnd(line, 0, IsSpace);
    if i0 >= |line| || !IsIdentStart(line[i0]) then None
    else
      var j := RunEnd(line, i0 + 1, IsIdentChar);
      if j < i0 + 2 then None
      else
        var k := RunEnd(line, j, IsSpace);
        if k == j then None
        // `.+` takes the rest of the line; on an empty rest `\s+` gives back one character.
        else if k < |line| then Some(KeyValue(line[i0..j], line[k..]))
        else if k - j >= 2 then Some(KeyValue(line[i0..j], line[k - 1..]))
        else None
  }

  /** A key, a separator and a value that starts with a non-space match back to that key and value. */
  lemma MatchKeyValueLine(lead: string, key: string, sep: string, value: string)
    requires forall k :: 0 <= k < |lead| ==> IsSpace(lead[k])
    requires |key| >= 2 && IsIdentStart(key[0]) && forall k :: 0 <= k < |key| ==> IsIdentChar(key[k])
    requires |sep| >= 1 && forall k :: 0 <= k < |sep| ==> IsSpace(sep[k])
    requires |value| >= 1 && !IsSpace(value[0])
    ensures MatchPkgLine(lead + key + sep + value) == Some(KeyValue(key, value))
  {
    var line := lead + key + sep + value;
    var a, b, c := |lead|, |lead| + |key|, |lead| + |key| + |sep|;
    assert forall k :: 0 <= k < a ==> line[k] == lead[k];
    assert forall k :: a <= k < b ==> line[k] == key[k - a];
    assert forall k :: b <= k < c ==> line[k] == sep[k - b];
    assert line[c] == value[0];
    RunEndAt(line, 0, IsSpace, a);
    RunEndAt(line, a + 1, IsIdentChar, b);
    RunEndAt(line, b, IsSpace, c);
    assert line[a..b] == key;
    assert line[c..] == value;
  }

  predicate IsBreak(c: char)
  {
    c == '\r' || c == '\n'
  }

  /** `contents.split(/[\r\n]+/)`: a run of CR/LF characters separates two lines. */
  function SplitRuns(s: string): (r: seq<string>)
    ensures |r| >= 1
    ensures forall i, k :: 0 <= i < |r| && 0 <= k < |r[i]| ==> !IsBreak(r[i][k])
  {
    if s == [] then [""]
    else
      var r := SplitRuns(s[..|s| - 1]);
      var c := s[|s| - 1];
      if !IsBreak(c) then
        var last := r[|r| - 1] + [c];
        assert forall k :: 0 <= k < |last| ==> !IsBreak(last[k]);
        r[..|r| - 1] + [last]
      else if |s| >= 2 && IsBreak(s[|s| - 2]) then r
      else r + [""]
  }

  /** The effect of one pkg.cfg line on the package being read. */
  function ApplyPkgLine(info: PackageInfo, line: string): PackageInfo
  {
    var m := MatchPkgLine(line);
    if m.None? then info
    else if Lower(m.value.key) == "enabled" then info.(enabled := m.value.value != "0")
    else if Lower(m.value.key) == "name" then info.(name := m.value.value)
    else info
  }

  function ApplyPkgLines(info: PackageInfo, lines: seq<string>): PackageInfo
  {
    if lines == [] then info else ApplyPkgLine(ApplyPkgLines(info, lines[..|lines| - 1]), lines[|lines| - 1])
  }

  /** The value of the last line whose key is `key` (lowercased), if any. */
  function LastValue(lines: seq<string>, key: string): (r: Option<string>)
  {
    if lines == [] then None
    else
      var m := MatchPkgLine(lines[|lines| - 1]);
      if m.Some? && Lower(m.value.key) == key then Some(m.value.value)
      else LastValue(lines[..|lines| - 1], key)
  }

  /** The package a pkg.cfg file describes, before its includes are listed. */
  function PackageOf(uri: string, contents: string): PackageInfo
  {
    ApplyPkgLines(PackageInfo(uri, false, "", []), SplitRuns(contents))
  }

  /**
   * The name is the value of the last Name line, and the package is enabled
   * exactly when the last Enabled line's value is anything but "0".
   */
  lemma {:induction false} LastLinesDecide(info: PackageInfo, lines: seq<string>)
    ensures var r := ApplyPkgLines(info, lines);
      r.uri == info.uri && r.includes == info.includes &&
      r.name == (if LastValue(lines, "name").Some? then LastValue(lines, "name").value else info.name) &&
      r.enabled == (if LastValue(lines, "enabled").Some? then LastValue(lines, "enabled").value != "0" else info.enabled)
  {
    if lines != [] {
      LastLinesDecide(info, lines[..|lines| - 1]);
    }
  }

  /** `addPackage`'s line loop. */
  method ReadPackage(uri: string, contents: string) returns (info: PackageInfo)
    ensures info == PackageOf(uri, contents)
  {
    var lines := SplitRuns(contents);
    info := PackageInfo(uri, false, "", []);
    var i := 0;
    while i < |lines|
      invariant 0 <= i <= |lines|
      invariant info == ApplyPkgLines(PackageInfo(uri, false, "", []), lines[..i])
    {
      assert lines[..i + 1][..i] == lines[..i];
      var m := MatchPkgLine(lines[i]);
      if m.Some? {
        var key := Lower(m.value.key);
        if key == "enabled" {
          info := info.(enabled := m.value.value != "0");
        } else if key == "name" {
          info := info.(name := m.value.value);
        }
      }
      i := i + 1;
    }
    assert lines[..i] == lines;
  }

  // ---------------------------------------------------------------------
  // Include completion
  // ---------------------------------------------------------------------

  /** `String.prototype.substring`: both ends clamped to the string, swapped when reversed. */
  function JsSubstring(s: string, a: int, b: int): (r: string)
    ensures |r| <= |s|
  {
    var x := if a < 0 then 0 else if a > |s| then |s| else a;
    var y := if b < 0 then 0 else if b > |s| then |s| else b;
    if x <= y then s[x..y] else s[y..x]
  }

  /** The label of an inc: "/inc/" and the four-character extension are dropped. */
  function IncludeLabel(pkgName: string, inc: string): (r: string)
    ensures StartsWith(r, pkgName + ":")
  {
    var rest := if StartsWith(inc, "/include")
      then JsSubstring(inc, 9, |inc| - 4)
      else JsSubstring(inc, 0, |inc| - 4);
    assert (pkgName + ":" + rest)[..|pkgName| + 1] == pkgName + ":";
    pkgName + ":" + rest
  }

  function IncludeLabels(pkgName: string, includes: seq<string>, file: string): (r: seq<string>)
    ensures forall l :: l in r <==> exists inc :: inc in includes && StartsWith(inc, file) && l == IncludeLabel(pkgName, inc)
  {
    if includes == [] then []
    else
      var last := includes[|includes| - 1];
      assert includes == includes[..|includes| - 1] + [last];
      IncludeLabels(pkgName, includes[..|includes| - 1], file) + (if StartsWith(last, file) then [IncludeLabel(pkgName, last)] else [])
  }

  function PackageLabels(ps: seq<PackageEntry>, pkgName: string, file: string): (r: seq<string>)
  {
    if ps == [] then []
    else
      var e := ps[|ps| - 1];
      PackageLabels(ps[..|ps| - 1], pkgName, file) +
        (if StartsWith(Lower(e.key), pkgName) then IncludeLabels(e.key, e.info.includes, file) else [])
  }

  /** A label is offered exactly for an inc of a package whose name starts with the typed one. */
  lemma {:induction false} PackageLabelsExactly(ps: seq<PackageEntry>, pkgName: string, file: string, l: string)
    ensures l in PackageLabels(ps, pkgName, file) <==>
      exists e, inc :: e in ps && StartsWith(Lower(e.key), pkgName) && inc in e.info.includes &&
        StartsWith(inc, file) && l == IncludeLabel(e.key, inc)
  {
    if ps != [] {
      var init, e := ps[..|ps| - 1], ps[|ps| - 1];
      assert ps == init + [e];
      PackageLabelsExactly(init, pkgName, file, l);
      if l in PackageLabels(ps, pkgName, file) && l !in PackageLabels(init, pkgName, file) {
        var inc :| inc in e.info.includes && StartsWith(inc, file) && l == IncludeLabel(e.key, inc);
        assert e in ps;
      }
    }
  }

  /** The package part and the file part of a typed ":pkg:file" prefix. */
  function CompletionQuery(prefix: string): (r: Option<(string, string)>)
    ensures r.Some? <==> StartsWith(Lower(prefix), ":")
  {
    var p := Lower(prefix);
    if !StartsWith(p, ":") then None
    else
      var c := IndexOfFrom(p, ':', 1);
      if c.None? then Some((p[1..], "")) else Some((p[1..c.value], p[c.value + 1..]))
  }

  function CompletionLabels(ps: seq<PackageEntry>, prefix: string): (r: seq<string>)
    ensures !StartsWith(Lower(prefix), ":") ==> r == []
  {
    var q := CompletionQuery(prefix);
    if q.None? then [] else PackageLabels(ps, q.value.0, q.value.1)
  }

  /** The inc loop of one package. */
  method PackageItems(pkgName: string, includes: seq<string>, file: string) returns (labels: seq<string>)
    ensures labels == IncludeLabels(pkgName, includes, file)
  {
    labels := [];
    var i := 0;
    while i < |includes|
      invariant 0 <= i <= |includes|
      invariant labels == IncludeLabels(pkgName, includes[..i], file)
    {
      assert includes[..i + 1][..i] == includes[..i];
      if StartsWith(includes[i], file) {
        labels := labels + [IncludeLabel(pkgName, includes[i])];
      }
      i := i + 1;
    }
    assert includes[..i] == includes;
  }

  // ---------------------------------------------------------------------
  // The workspace's path details
  // ---------------------------------------------------------------------

  /** An entry of the objtype map under its numeric id; only the package it came from matters here. */
  datatype ObjTypeEntry = ObjTypeEntry(id: int, typeName: string, pkgName: string)

  /** The keys of the entries whose uri starts with `root`. */
  function KeysUnder(ps: seq<PackageEntry>, root: string): (r: seq<string>)
    ensures forall k :: k in r <==> exists i :: 0 <= i < |ps| && ps[i].key == k && StartsWith(ps[i].info.uri, root)
  {
    if ps == [] then []
    else
      var e := ps[|ps| - 1];
      assert forall i :: 0 <= i < |ps| - 1 ==> ps[i] == ps[..|ps| - 1][i];
      KeysUnder(ps[..|ps| - 1], root) + (if StartsWith(e.info.uri, root) then [e.key] else [])
  }

  /** The entries whose uri does not start with `root`, in order. */
  function PackagesNotUnder(ps: seq<PackageEntry>, root: string): (r: seq<PackageEntry>)
    ensures forall e :: e in r <==> e in ps && !StartsWith(e.info.uri, root)
  {
    if ps == [] then []
    else
      var e := ps[|ps| - 1];
      assert ps == ps[..|ps| - 1] + [e];
      PackagesNotUnder(ps[..|ps| - 1], root) + (if StartsWith(e.info.uri, root) then [] else [e])
  }

  /** The package loop of `delPackageRoot`. */
  method RemovePackagesUnder(ps: seq<PackageEntry>, root: string) returns (kept: seq<PackageEntry>, deleted: seq<string>)
    ensures kept == PackagesNotUnder(ps, root)
    ensures deleted == KeysUnder(ps, root)
  {
    kept, deleted := [], [];
    var i := 0;
    while i < |ps|
      invariant 0 <= i <= |ps|
      invariant kept == PackagesNotUnder(ps[..i], root)
      invariant deleted == KeysUnder(ps[..i], root)
    {
      assert ps[..i + 1][..i] == ps[..i];
      if StartsWith(ps[i].info.uri, root) {
        deleted := deleted + [ps[i].key];
      } else {
        kept := kept + [ps[i]];
      }
      i := i + 1;
    }
    assert ps[..i] == ps;
  }

  /** The objtype entries not contributed by a deleted package, in insertion order. */
  function ObjTypesKept(objtypes: seq<ObjTypeEntry>, deleted: seq<string>): (r: seq<ObjTypeEntry>)
    ensures forall e :: e in r <==> e in objtypes && e.pkgName !in deleted
  {
    if objtypes == [] then []
    else
      var e := objtypes[|objtypes| - 1];
      assert objtypes == objtypes[..|objtypes| - 1] + [e];
      ObjTypesKept(objtypes[..|objtypes| - 1], deleted) + (if e.pkgName in deleted then [] else [e])
  }

  /** Whether some entry was contributed by a deleted package. */
  predicate AnyDeleted(objtypes: seq<ObjTypeEntry>, deleted: seq<string>)
    ensures AnyDeleted(objtypes, deleted) <==> exists i :: 0 <= i < |objtypes| && objtypes[i].pkgName in deleted
  {
    if objtypes == [] then false
    else
      assert forall i :: 0 <= i < |objtypes| - 1 ==> objtypes[i] == objtypes[..|objtypes| - 1][i];
      AnyDeleted(objtypes[..|objtypes| - 1], deleted) || objtypes[|objtypes| - 1].pkgName in deleted
  }

  /** The objtype loop of `delPackageRoot`. */
  method DropObjTypes(objtypes: seq<ObjTypeEntry>, deleted: seq<string>) returns (kept: seq<ObjTypeEntry>, needsReparse: bool)
    ensures kept == ObjTypesKept(objtypes, deleted)
    ensures needsReparse == AnyDeleted(objtypes, deleted)
  {
    kept := [];
    needsReparse := false;
    var i := 0;
    while i < |objtypes|
      invariant 0 <= i <= |objtypes|
      invariant kept == ObjTypesKept(objtypes[..i], deleted)
      invariant needsReparse == AnyDeleted(objtypes[..i], deleted)
    {
      assert objtypes[..i + 1][..i] == objtypes[..i];
      if objtypes[i].pkgName in deleted {
        needsReparse := true;
      } else {
        kept := kept + [objtypes[i]];
      }
      i := i + 1;
    }
    assert objtypes[..i] == objtypes;
  }

  class PathDetails {
    var packageRoots: seq<string>
    var includeDirs: seq<string>
    var modules: map<string, string>
    var packages: seq<PackageEntry>
    var objtypes: Option<seq<ObjTypeEntry>>

    /** Package keys are distinct, as the keys of a dictionary are. */
    predicate Valid()
      reads this
    {
      DistinctKeys(packages)
    }

    constructor()
      ensures Valid()
      ensures packageRoots == [] && includeDirs == [] && modules == map[] && packages == [] && objtypes == None
    {
      packageRoots, includeDirs, modules, packages, objtypes := [], [], map[], [], None;
    }

    /** `addPackage`: the package is stored under its Name, and only when that is non-empty. */
    method AddPackage(uri: string, contents: string, includes: seq<string>)
      requires Valid()
      modifies this`packages
      ensures Valid()
      ensures var info := PackageOf(uri, contents).(includes := includes);
        packages == (if info.name != "" then PutPackage(old(packages), info.name, info) else old(packages))
    {
      var info := ReadPackage(uri, contents);
      info := info.(includes := includes);
      if info.name != "" {
        PutPackageKeys(packages, info.name, info);
        packages := PutPackage(packages, info.name, info);
      }
    }

    /** `delPackageRoot`: drops the root, its packages and the objtypes they contributed. */
    method DelPackageRoot(del: string) returns (needsReparse: bool)
      requires Valid()
      modifies this
      ensures Valid()
      ensures packageRoots == Without(old(packageRoots), [del])
      ensures packages == PackagesNotUnder(old(packages), del)
      ensures old(objtypes).None? ==> objtypes == old(objtypes) && !needsReparse
      ensures old(objtypes).Some? ==> var deleted := KeysUnder(old(packages), del);
        objtypes == Some(ObjTypesKept(old(objtypes).value, deleted)) &&
        needsReparse == AnyDeleted(old(objtypes).value, deleted)
      ensures includeDirs == old(includeDirs) && modules == old(modules)
    {
      packageRoots := Without(packageRoots, [del]);
      var deleted;
      packages, deleted := RemovePackagesUnder(packages, del);
      SubsequenceDistinct(old(packages), del);
      needsReparse := false;
      if objtypes.Some? {
        var kept;
        kept, needsReparse := DropObjTypes(objtypes.value, deleted);
        objtypes := Some(kept);
      }
    }

    /** `locateInclude` with the package name compared regardless of case. */
    method LocateInclude(includeSpec: string, stat: Candidate -> Stat) returns (r: Option<Candidate>)
      ensures var search := IncludeSearchOf(includeDirs, packages, includeSpec);
        r == (if search.UnknownPackage? then None else FirstFile(search.roots, search.spec, stat))
    {
      var search := IncludeSearchOf(includeDirs, packages, includeSpec);
      if search.UnknownPackage? {
        return None;
      }
      var roots := search.roots;
      var i := 0;
      while i < |roots|
        invariant 0 <= i <= |roots|
        invariant FirstFile(roots, search.spec, stat) == FirstFile(roots[i..], search.spec, stat)
      {
        assert roots[i..][1..] == roots[i + 1..];
        r := SearchRoot(roots[i], search.spec, stat);
        if r.Some? {
          return r;
        }
        i := i + 1;
      }
      r := None;
    }

    /** `toCompletionItems`: the labels of the includes of every package the prefix names. */
    method ToCompletionItems(prefix: string) returns (labels: seq<string>)
      ensures labels == CompletionLabels(packages, prefix)
    {
      labels := [];
      var q := CompletionQuery(prefix);
      if q.None? {
        return;
      }
      var (pkgName, file) := q.value;
      var i := 0;
      while i < |packages|
        invariant 0 <= i <= |packages|
        invariant labels == PackageLabels(packages[..i], pkgName, file)
      {
        assert packages[..i + 1][..i] == packages[..i];
        if StartsWith(Lower(packages[i].key), pkgName) {
          var more := PackageItems(packages[i].key, packages[i].info.includes, file);
          labels := labels + more;
        }
        i := i + 1;
      }
      assert packages[..i] == packages;
    }
  }

  lemma {:induction false} SubsequenceDistinct(ps: seq<PackageEntry>, root: string)
    requires DistinctKeys(ps)
    ensures DistinctKeys(PackagesNotUnder(ps, root))
    ensures forall e :: e in PackagesNotUnder(ps, root) ==> e.key !in KeysUnder(ps, root)
  {
    if ps != [] {
      var init, e := ps[..|ps| - 1], ps[|ps| - 1];
      assert DistinctKeys(init);
      SubsequenceDistinct(init, root);
      assert forall f :: f in init ==> f.key != e.key;
      assert forall f :: f in PackagesNotUnder(init, root) ==> f in init;
    }
  }

  // ---------------------------------------------------------------------
  // Package names and their case
  // ---------------------------------------------------------------------

  /**
   * As written, a package stored under a name with an upper-case letter is
   * never found: the name of a ":name:file" spec is lowercased before the
   * lookup, while the case-insensitive lookup finds it.
   */
  lemma {:induction false} CasedNameUnknownAsWritten(includeDirs: seq<string>, ps: seq<PackageEntry>, i: nat, file: string)
    requires i < |ps| && ':' !in ps[i].key
    requires Lower(ps[i].key) !in Keys(ps)
    ensures IncludeSearchAsWritten(includeDirs, ps, ":" + ps[i].key + ":" + file) == UnknownPackage(Lower(ps[i].key))
    ensures IncludeSearchOf(includeDirs, ps, ":" + ps[i].key + ":" + file).Search?
  {
    PackageSpecOfName(ps[i].key, file);
    NamedPackageFound(includeDirs, ps, i, file);
  }

  lemma PackageSpecOfName(name: string, file: string)
    requires ':' !in name
    ensures PackageSpec(":" + name + ":" + file) == Some((Lower(name), file))
  {
    var spec := ":" + name + ":" + file;
    assert forall k :: 1 <= k < |name| + 1 ==> spec[k] == name[k - 1];
    assert spec[|name| + 1] == ':';
    IndexOfFromAt(spec, ':', 1, |name| + 1);
    assert spec[1..|name| + 1] == name;
    assert spec[|name| + 2..] == file;
  }

  /** Every include of every package is offered when the prefix is ":". */
  lemma CompletionOffersEveryInclude(ps: seq<PackageEntry>, e: PackageEntry, inc: string)
    requires e in ps && inc in e.info.includes
    ensures IncludeLabel(e.key, inc) in CompletionLabels(ps, ":")
  {
    var l := Lower(":");
    assert l[0] == ':';
    assert l == ":";
    assert IndexOfFrom(":", ':', 1) == None;
    assert CompletionQuery(":") == Some(("", ""));
    assert CompletionLabels(ps, ":") == PackageLabels(ps, "", "");
    assert StartsWith(Lower(e.key), "") && StartsWith(inc, "");
    PackageLabelsExactly(ps, "", "", IncludeLabel(e.key, inc));
  }

  /** The label of "/include/" + base + ".inc" is the package name, ':' and base. */
  lemma IncludeDirLabel(pkgName: string, base: string)
    ensures IncludeLabel(pkgName, "/include" + "/" + base + ".inc") == pkgName + ":" + base
  {
    var inc := "/include" + "/" + base + ".inc";
    assert inc[..8] == "/include";
    assert inc[9..|inc| - 4] == base;
  }

  /**
   * The concrete case: pkg.cfg says "Name Foo", the package has
   * include/bar.inc, completion offers "Foo:bar", and the spec ":Foo:bar"
   * is reported as the unknown package "foo".
   */
  lemma CasedPackageNotFound()
    ensures var info := PackageInfo("file:///pkg/foo", true, "Foo", ["/include" + "/" + "bar" + ".inc"]);
      var ps := PutPackage([], "Foo", info);
      MatchPkgLine("" + "Name" + " " + "Foo") == Some(KeyValue("Name", "Foo")) &&
      "Foo" + ":" + "bar" in CompletionLabels(ps, ":") &&
      IncludeSearchAsWritten([], ps, ":" + "Foo" + ":" + "bar") == UnknownPackage(Lower("Foo")) &&
      IncludeSearchOf([], ps, ":" + "Foo" + ":" + "bar") == Search(["file:///pkg/foo"], WithInc("bar"))
  {
    var inc := "/include" + "/" + "bar" + ".inc";
    var info := PackageInfo("file:///pkg/foo", true, "Foo", [inc]);
    var ps := PutPackage([], "Foo", info);
    assert ps == [PackageEntry("Foo", info)];
    MatchKeyValueLine("", "Name", " ", "Foo");
    CompletionOffersEveryInclude(ps, ps[0], inc);
    IncludeDirLabel("Foo", "bar");
    assert Lower("Foo")[0] == 'f';
    assert Keys(ps) == {"Foo"};
    CasedNameUnknownAsWritten([], ps, 0, "bar");
    PackageSpecOfName("Foo", "bar");
  }

  lemma LastBaseStart(s: string)
    requires forall k :: 0 <= k < |s| ==> s[k] != '/'
    ensures EscriptVisitor.BaseStart(s) == 0
  {
  }
}
