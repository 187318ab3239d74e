/**
 * The language server's document cache (`LSPWorkspace`): a map from
 * pathname to open document, with the editor's open/close/analyze/
 * diagnostics/tokens/dependees requests, the contents loader, and the
 * reference index spread over the documents.
 *
 * The C++ `LSPWorkspace`, `LSPDocument::analyze`/`build_references` and the
 * `ReferencesBuilder` visitor call each other; the methods that write the
 * index of other documents are therefore methods of the workspace class
 * here, next to `create_or_get_from_cache`.
 *
 * `Index()` is the whole reference index, one `referenced_by` map per cached
 * pathname; the visitor is proved to apply `ReferencesBuilder.Visit`'s edges
 * to it in order (`ApplyEdges`).
 */
module LspWorkspace {
  import opened Common
  import opened CompilerModel
  import opened LocationOrder
  import opened LspDocument
  import opened ReferencesBuilder

  type WorkspaceIndex = map<string, RefIndex>

  function EdgeLocation(e: Edge): ReferenceLocation
  {
    ReferenceLocation(e.usedPathname, e.usedRange)
  }

  /** The index of one document; a document not in the cache has an empty one. */
  function DocumentIndex(idx: WorkspaceIndex, p: string): RefIndex
  {
    if p in idx then idx[p] else map[]
  }

  /** One edge written into its defining document. */
  function AddEdge(idx: WorkspaceIndex, e: Edge): WorkspaceIndex
  {
    idx[e.definitionPath := AddRef(DocumentIndex(idx, e.definitionPath), e.definedAt, EdgeLocation(e))]
  }

  /** Edges written in order. */
  function ApplyEdges(idx: WorkspaceIndex, es: seq<Edge>): WorkspaceIndex
    decreases |es|
  {
    if es == [] then idx else ApplyEdges(AddEdge(idx, es[0]), es[1..])
  }

  /** `referenced_by.find(range)` in the document `p`. */
  function Lookup(idx: WorkspaceIndex, p: string, r: Range): Option<seq<ReferenceLocation>>
  {
    if p in idx && r in idx[p] then Some(idx[p][r]) else None
  }

  predicate WorkspaceIncludes(bigger: WorkspaceIndex, smaller: WorkspaceIndex)
  {
    forall p :: p in smaller ==> p in bigger && IndexIncludes(bigger[p], smaller[p])
  }

  predicate WorkspaceSorted(idx: WorkspaceIndex)
  {
    forall p :: p in idx ==> IndexSorted(idx[p])
  }

  lemma {:induction false} ApplyEdgesAppend(idx: WorkspaceIndex, a: seq<Edge>, b: seq<Edge>)
    ensures ApplyEdges(idx, a + b) == ApplyEdges(ApplyEdges(idx, a), b)
    decreases |a|
  {
    if a == [] {
      assert a + b == b;
    } else {
      assert (a + b)[0] == a[0] && (a + b)[1..] == a[1..] + b;
      ApplyEdgesAppend(AddEdge(idx, a[0]), a[1..], b);
    }
  }

  lemma AddEdgeGrows(idx: WorkspaceIndex, e: Edge)
    ensures WorkspaceIncludes(AddEdge(idx, e), idx)
  {
    AddRefOnlyGrows(DocumentIndex(idx, e.definitionPath), e.definedAt, EdgeLocation(e));
  }

  lemma WorkspaceIncludesTransitive(a: WorkspaceIndex, b: WorkspaceIndex, c: WorkspaceIndex)
    requires WorkspaceIncludes(a, b) && WorkspaceIncludes(b, c)
    ensures WorkspaceIncludes(a, c)
  {
  }

  /** No edge is ever removed: the index only grows. */
  lemma {:induction false} ApplyEdgesGrows(idx: WorkspaceIndex, es: seq<Edge>)
    ensures WorkspaceIncludes(ApplyEdges(idx, es), idx)
    decreases |es|
  {
    if es != [] {
      AddEdgeGrows(idx, es[0]);
      ApplyEdgesGrows(AddEdge(idx, es[0]), es[1..]);
      WorkspaceIncludesTransitive(ApplyEdges(idx, es), AddEdge(idx, es[0]), idx);
    }
  }

  /** Every set of the index stays strictly sorted. */
  lemma {:induction false} ApplyEdgesSorted(idx: WorkspaceIndex, es: seq<Edge>)
    requires WorkspaceSorted(idx)
    ensures WorkspaceSorted(ApplyEdges(idx, es))
    decreases |es|
  {
    if es != [] {
      AddRefSorted(DocumentIndex(idx, es[0].definitionPath), es[0].definedAt, EdgeLocation(es[0]));
      ApplyEdgesSorted(AddEdge(idx, es[0]), es[1..]);
    }
  }

  /** A recorded location remains in the index whatever is written later. */
  lemma LookupKeepsLocation(small: WorkspaceIndex, big: WorkspaceIndex, p: string, r: Range, loc: ReferenceLocation)
    requires WorkspaceIncludes(big, small)
    requires Lookup(small, p, r).Some? && SetHas(Lookup(small, p, r).value, loc)
    ensures Lookup(big, p, r).Some? && SetHas(Lookup(big, p, r).value, loc)
  {
    var e :| e in small[p][r] && RefEquivalent(e, loc);
    assert e in big[p][r];
  }

  /** After the edges are written, each edge's definition key finds a set holding its use. */
  lemma {:induction false} ApplyEdgesRecords(idx: WorkspaceIndex, es: seq<Edge>, e: Edge)
    requires e in es
    ensures Lookup(ApplyEdges(idx, es), e.definitionPath, e.definedAt).Some?
    ensures SetHas(Lookup(ApplyEdges(idx, es), e.definitionPath, e.definedAt).value, EdgeLocation(e))
    decreases |es|
  {
    if es[0] == e {
      var next := AddEdge(idx, e);
      AddRefRecords(DocumentIndex(idx, e.definitionPath), e.definedAt, EdgeLocation(e));
      ApplyEdgesGrows(next, es[1..]);
      LookupKeepsLocation(next, ApplyEdges(next, es[1..]), e.definitionPath, e.definedAt, EdgeLocation(e));
    } else {
      ApplyEdgesRecords(AddEdge(idx, es[0]), es[1..], e);
    }
  }

  // ---------------------------------------------------------------------
  // Map key order: `std::map<std::string, ...>` iterates by `std::string::compare`

  /** `a` is a proper prefix of `b`. */
  predicate ProperPrefix(a: string, b: string)
  {
    |a| < |b| && forall k :: 0 <= k < |a| ==> a[k] == b[k]
  }

  /** `a` and `b` first differ at `i`, where `a` has the smaller character. */
  predicate SmallerAt(a: string, b: string, i: nat)
  {
    i < |a| && i < |b| && a[i] < b[i] && forall k :: 0 <= k < i ==> a[k] == b[k]
  }

  /** `a.compare(b) < 0`: a proper prefix, or smaller at the first difference. */
  predicate KeyLess(a: string, b: string)
  {
    ProperPrefix(a, b) || exists i: nat :: i < |a| && SmallerAt(a, b, i)
  }

  lemma KeyLessIrreflexive(a: string)
    ensures !KeyLess(a, a)
  {
  }

  lemma {:induction false} KeyLessTransitive(a: string, b: string, c: string)
    requires KeyLess(a, b) && KeyLess(b, c)
    ensures KeyLess(a, c)
  {
    if ProperPrefix(a, b) {
      if !ProperPrefix(b, c) {
        var j: nat :| SmallerAt(b, c, j);
        assert SmallerAt(b, c, j);
        if j < |a| {
          assert SmallerAt(a, c, j);
        }
      }
    } else {
      var i: nat :| SmallerAt(a, b, i);
      assert SmallerAt(a, b, i);
      if ProperPrefix(b, c) {
        assert b[i] == c[i];
        assert SmallerAt(a, c, i);
      } else {
        var j: nat :| SmallerAt(b, c, j);
        assert SmallerAt(b, c, j);
        var k := if i < j then i else j;
        assert forall m :: 0 <= m < k ==> a[m] == b[m] == c[m];
        assert a[k] < c[k] by {
          if i < j {
            assert b[i] == c[i];
          } else if j < i {
            assert a[j] == b[j];
          }
        }
        assert SmallerAt(a, c, k);
      }
    }
  }

  lemma KeyLessTotal(a: string, b: string)
    requires a != b
    ensures KeyLess(a, b) || KeyLess(b, a)
  {
    KeyLessTotalFrom(a, b, 0);
  }

  /** Totality, for strings already known to agree below `i`. */
  lemma {:induction false} KeyLessTotalFrom(a: string, b: string, i: nat)
    requires a != b && i <= |a| && i <= |b|
    requires forall k :: 0 <= k < i ==> a[k] == b[k]
    ensures KeyLess(a, b) || KeyLess(b, a)
    decreases |a| - i
  {
    if i == |a| || i == |b| {
      if |a| < |b| {
        assert ProperPrefix(a, b);
      } else if |b| < |a| {
        assert ProperPrefix(b, a);
      } else {
        assert false;
      }
    } else if a[i] < b[i] {
      assert SmallerAt(a, b, i);
    } else if b[i] < a[i] {
      assert SmallerAt(b, a, i);
    } else {
      KeyLessTotalFrom(a, b, i + 1);
    }
  }

  /** The first key of a non-empty key set in iteration order. */
  ghost function MinKey(s: set<string>): (m: string)
    requires s != {}
    ensures m in s && forall k :: k in s && k != m ==> KeyLess(m, k)
  {
    var x :| x in s;
    if s == {x} then x
    else
      var m' := MinKey(s - {x});
      KeyLessTotal(x, m');
      if KeyLess(x, m') then
        forall k | k in s && k != x
          ensures KeyLess(x, k)
        {
          if k != m' { KeyLessTransitive(x, m', k); }
        }
        x
      else m'
  }

  predicate KeysIncreasing(ks: seq<string>)
  {
    forall i, j :: 0 <= i < j < |ks| ==> KeyLess(ks[i], ks[j])
  }

  /** The keys found so far come in order, and all of them before the keys still to visit. */
  predicate Below(results: seq<string>, remaining: set<string>)
  {
    KeysIncreasing(results) && forall p, q :: p in results && q in remaining ==> KeyLess(p, q)
  }

  /** The first key of `remaining`, as `std::map` iteration reaches it. */
  method FirstKey(remaining: set<string>) returns (key: string)
    requires remaining != {}
    ensures key in remaining && forall k :: k in remaining && k != key ==> KeyLess(key, k)
  {
    assert MinKey(remaining) in remaining;
    key :| key in remaining && forall k :: k in remaining && k != key ==> KeyLess(key, k);
  }

  /** The loop over `referenced_source_file_identifiers`, stopping at the first match. */
  method Mentions(refs: seq<string>, pathname: string) returns (found: bool)
    ensures found <==> pathname in refs
  {
    var j := 0;
    while j < |refs|
      invariant 0 <= j <= |refs|
      invariant forall k :: 0 <= k < j ==> refs[k] != pathname
    {
      if refs[j] == pathname {
        return true;
      }
      j := j + 1;
    }
    return false;
  }

  /** Visiting the smallest remaining key keeps the found keys in order and below the rest. */
  lemma BelowStep(before: seq<string>, after: seq<string>, remaining: set<string>, key: string)
    requires Below(before, remaining) && key in remaining
    requires forall k :: k in remaining && k != key ==> KeyLess(key, k)
    requires after == before || after == before + [key]
    ensures Below(after, remaining - {key})
  {
    forall p, q | p in after && q in remaining - {key}
      ensures KeyLess(p, q)
    {
      if p != key {
        assert p in before;
        assert KeyLess(p, key);
        KeyLessTransitive(p, key, q);
      }
    }
    if after == before + [key] {
      forall i, j | 0 <= i < j < |after|
        ensures KeyLess(after[i], after[j])
      {
        if j == |before| {
          assert after[i] in before;
        } else {
          assert after[i] == before[i] && after[j] == before[j];
        }
      }
    }
  }

  // ---------------------------------------------------------------------
  // Outputs of the editor requests

  /** The output of the analysing compiler: it returns a workspace or none, or raises an error. */
  datatype CompileOutcome =
    | Compiled(workspace: Option<CompilerWorkspace>, reported: seq<Diagnostic>)
    | Threw(message: string, reported: seq<Diagnostic>)

  /**
   * `make_compiler()`'s `analyze(pathname, report, is_module, continue_on_error)`,
   * with the include compile mode as the second argument; the compiler is
   * not part of this model.
   */
  type Compile = (string, bool, bool, bool) -> CompileOutcome

  /** The unfiltered diagnostics of the workspace request, in report order. */
  function AllDiagnostics(ds: seq<Diagnostic>): (r: seq<LspDiagnostic>)
    ensures |r| == |ds| && forall i :: 0 <= i < |ds| ==> r[i] == ToLsp(ds[i])
  {
    if ds == [] then [] else [ToLsp(ds[0])] + AllDiagnostics(ds[1..])
  }

  /** When every diagnostic is in the document's own file, the filtered and unfiltered outputs agree. */
  lemma {:induction false} OwnDiagnosticsOfOwnFile(ds: seq<Diagnostic>, p: string)
    requires forall d :: d in ds ==> d.location.pathname == p
    ensures OwnDiagnostics(ds, p) == AllDiagnostics(ds)
  {
    if ds != [] {
      assert forall d :: d in ds[1..] ==> d in ds;
      OwnDiagnosticsOfOwnFile(ds[1..], p);
    }
  }

  /** A semantic token as the editor receives it: 0-based line and column, length, type, no modifiers. */
  function TokenRow(t: SemanticToken): (row: seq<int>)
    ensures |row| == 5 && row[0] == t.line - 1 && row[1] == t.column - 1
    ensures row[2] == t.length && row[3] == t.tokenType && row[4] == 0
  {
    [t.line - 1, t.column - 1, t.length, t.tokenType, 0]
  }

  const NotOpened := "Document not opened"
  const NoContents := "Could not get contents of file"

  class LSPWorkspace {
    var cache: map<string, LSPDocument>
    /** The documents the cache holds or has held. */
    ghost var Repr: set<LSPDocument>

    /** Each document is cached under its own pathname. */
    ghost predicate Valid()
      reads this
    {
      forall p :: p in cache ==> cache[p] in Repr && cache[p].pathname == p
    }

    /** Every cached document's reference index, under its pathname. */
    function Index(): WorkspaceIndex
      requires Valid()
      reads this, Repr`referencedBy
    {
      map p | p in cache :: cache[p].referencedBy
    }

    /** The documents cached before are still cached, under the same keys. */
    ghost predicate Retains(before: map<string, LSPDocument>)
      reads this
    {
      forall p :: p in before ==> p in cache && cache[p] == before[p]
    }

    /** Still valid, every document cached before still cached, and only fresh documents added. */
    twostate predicate Grown()
      reads this
    {
      Valid() && Retains(old(cache)) && fresh(Repr - old(Repr))
    }

    constructor ()
      ensures Valid() && cache == map[]
    {
      cache := map[];
      Repr := {};
    }

    /** `Open`: a new document for an uncached path; an already cached document is kept. */
    method Open(pathname: string)
      requires Valid()
      modifies this
      ensures Valid()
      ensures pathname in old(cache) ==> cache == old(cache)
      ensures pathname !in old(cache) ==> (pathname in cache &&
        fresh(cache[pathname]) && cache == old(cache)[pathname := cache[pathname]] &&
        cache[pathname].docType == TypeOf(pathname) && cache[pathname].referencedBy == map[] &&
        cache[pathname].compilerWorkspace.None? && cache[pathname].diagnostics == [])
    {
      if pathname !in cache {
        var doc := new LSPDocument(pathname);
        cache := cache[pathname := doc];
        Repr := Repr + {doc};
      }
    }

    /** `Close`: true, and the entry is erased, exactly when the path was cached. */
    method Close(pathname: string) returns (closed: bool)
      requires Valid()
      modifies this
      ensures Valid()
      ensures closed == (pathname in old(cache))
      ensures cache == old(cache) - {pathname}
    {
      closed := pathname in cache;
      cache := cache - {pathname};
    }

    /** `create_or_get_from_cache`: the cached document, or a fresh empty one added to the cache. */
    method CreateOrGetFromCache(pathname: string) returns (doc: LSPDocument)
      requires Valid()
      modifies this
      ensures Grown()
      ensures pathname in cache && doc == cache[pathname] && cache.Keys == old(cache).Keys + {pathname}
      ensures pathname in old(cache) ==> cache == old(cache)
      ensures pathname !in old(cache) ==> fresh(doc) && doc.referencedBy == map[]
      ensures Index() == old(Index())[pathname := DocumentIndex(old(Index()), pathname)]
    {
      if pathname in cache {
        doc := cache[pathname];
        SameAt(Index(), pathname);
      } else {
        doc := AddDocument(pathname);
      }
    }

    /** The uncached branch of `create_or_get_from_cache`. */
    method AddDocument(pathname: string) returns (doc: LSPDocument)
      requires Valid() && pathname !in cache
      modifies this
      ensures Grown()
      ensures fresh(doc) && doc.referencedBy == map[] && cache == old(cache)[pathname := doc]
      ensures Index() == old(Index())[pathname := map[]]
    {
      doc := new LSPDocument(pathname);
      CacheDocument(doc);
    }

    /** Caches a document with an empty index under its pathname. */
    method CacheDocument(doc: LSPDocument)
      requires Valid() && doc.pathname !in cache && doc !in Repr && doc.referencedBy == map[]
      modifies this
      ensures Valid() && Retains(old(cache)) && Repr == old(Repr) + {doc}
      ensures cache == old(cache)[doc.pathname := doc]
      ensures Index() == old(Index())[doc.pathname := map[]]
    {
      ghost var before := Index();
      ghost var docs := cache;
      cache := cache[doc.pathname := doc];
      Repr := Repr + {doc};
      DocumentAdded(before, docs, doc.pathname);
    }

    /** The index after one document with an empty index joins the cache. */
    lemma DocumentAdded(before: WorkspaceIndex, docs: map<string, LSPDocument>, p: string)
      requires Valid() && p in cache && cache == docs[p := cache[p]] && cache[p].referencedBy == map[]
      requires before.Keys == docs.Keys && forall q :: q in docs ==> docs[q].referencedBy == before[q]
      ensures Index() == before[p := map[]]
    {
    }

    /** One `add_reference_by` into the document of the definition. */
    method RecordEdge(e: Edge)
      requires Valid()
      modifies this, Repr`referencedBy
      ensures Grown()
      ensures Index() == AddEdge(old(Index()), e)
    {
      ghost var before := Index();
      var doc := CreateOrGetFromCache(e.definitionPath);
      ghost var mid := Index();
      ghost var docs := cache;
      doc.AddReferenceBy(e.definedAt, e.usedPathname, e.usedRange);
      forall q | q in docs && q != e.definitionPath
        ensures docs[q].referencedBy == mid[q]
      {
        assert docs[q].pathname == q;
      }
      DocumentUpdated(mid, docs, e.definitionPath);
      UpdatedTwice(before, e.definitionPath, DocumentIndex(before, e.definitionPath), doc.referencedBy);
    }

    /** The index after the document cached under `p` changed its own index. */
    lemma DocumentUpdated(before: WorkspaceIndex, docs: map<string, LSPDocument>, p: string)
      requires Valid() && p in cache && cache == docs
      requires before.Keys == docs.Keys && forall q :: q in docs && q != p ==> docs[q].referencedBy == before[q]
      ensures Index() == before[p := cache[p].referencedBy]
    {
    }

    /** `add_function_reference`: the edge between the two name spans. */
    method AddFunctionReference(f: FunctionRef, call: SourceLocation)
      requires Valid()
      modifies this, Repr`referencedBy
      ensures Grown()
      ensures Index() == AddEdge(old(Index()), FunctionEdge(f, call))
    {
      RecordEdge(FunctionEdge(f, call));
    }

    /** `add_unoptimized_constant_reference`. */
    method AddUnoptimizedConstantReference(constants: string -> Option<ConstDecl>, n: AstNode)
      requires Valid()
      modifies this, Repr`referencedBy
      ensures Grown()
      ensures Index() == ApplyEdges(old(Index()), UnoptimizedEdges(constants, n))
    {
      if n.unoptimized.Some? && n.unoptimized.value.kind.IdentifierNode? {
        var constant := constants(n.unoptimized.value.kind.identifierName);
        if constant.Some? {
          var c := constant.value;
          RecordEdge(Edge(c.location.pathname, c.location.range, n.location.pathname, n.location.range));
        }
      }
    }

    /** `node.accept(builder)`: the visitor's overrides, else `visit_children`. */
    method Accept(constants: string -> Option<ConstDecl>, n: AstNode)
      requires Valid()
      modifies this, Repr`referencedBy
      ensures Grown()
      ensures Index() == ApplyEdges(old(Index()), Visit(constants, n))
      decreases n, 2
    {
      match n.kind
      case IdentifierNode(_, _) => VisitIdentifier(constants, n);
      case FunctionCallNode(_, _, _) => VisitFunctionCall(constants, n);
      case ValueNode(k, _) =>
        if k != OtherValue {
          AddUnoptimizedConstantReference(constants, n);
          ValueEdges(constants, n);
        } else {
          VisitChildren(constants, n);
          OtherEdges(constants, n);
        }
      case _ =>
        VisitChildren(constants, n);
        OtherEdges(constants, n);
    }

    /** `visit_identifier`: the variable's edge, then the children. */
    method VisitIdentifier(constants: string -> Option<ConstDecl>, n: AstNode)
      requires Valid() && n.kind.IdentifierNode?
      modifies this, Repr`referencedBy
      ensures Grown()
      ensures Index() == ApplyEdges(old(Index()), Visit(constants, n))
      decreases n, 1
    {
      ghost var before := Index();
      ghost var own := VariableEdges(n.kind.variable, n.location);
      if n.kind.variable.Some? {
        var v := n.kind.variable.value;
        RecordEdge(Edge(v.location.pathname, v.location.range, n.location.pathname, n.location.range));
        SingleEdge(before, own);
      } else {
        NoEdge(before, own);
      }
      ghost var mid := Index();
      VisitChildren(constants, n);
      IdentifierEdges(constants, n);
      ApplyEdgesChain(before, mid, Index(), own, ChildrenEdges(constants, n, |n.children|));
    }

    /** `visit_function_call`: the linked function's edge, then every non-null child. */
    method VisitFunctionCall(constants: string -> Option<ConstDecl>, n: AstNode)
      requires Valid() && n.kind.FunctionCallNode?
      modifies this, Repr`referencedBy
      ensures Grown()
      ensures Index() == ApplyEdges(old(Index()), Visit(constants, n))
      decreases n, 1
    {
      ghost var before := Index();
      ghost var own := CallEdges(n.kind.link, n.location);
      AddLinkReference(n.kind.link, n.location);
      ghost var mid := Index();
      NoCallKids(constants, n, mid);
      var i := 0;
      while i < |n.children|
        invariant 0 <= i <= |n.children|
        invariant Grown()
        invariant Index() == ApplyEdges(mid, CallChildrenEdges(constants, n, i))
      {
        VisitCallChildAt(constants, n, i, mid);
        i := i + 1;
      }
      CallKidsDone(Index(), mid, constants, n, i);
      CallNodeEdges(constants, n);
      ApplyEdgesChain(before, mid, Index(), own, CallChildrenEdges(constants, n, |n.children|));
    }

    /** The first part of `visit_function_call`: the user function if linked, else the module function. */
    method AddLinkReference(link: Option<FunctionLink>, call: SourceLocation)
      requires Valid()
      modifies this, Repr`referencedBy
      ensures Grown()
      ensures Index() == ApplyEdges(old(Index()), CallEdges(link, call))
    {
      ghost var before := Index();
      ghost var own := CallEdges(link, call);
      if link.Some? {
        if link.value.userFunction.Some? {
          AddFunctionReference(link.value.userFunction.value, call);
          SingleEdge(before, own);
        } else if link.value.moduleFunction.Some? {
          AddFunctionReference(link.value.moduleFunction.value, call);
          SingleEdge(before, own);
        } else {
          NoEdge(before, own);
        }
      } else {
        NoEdge(before, own);
      }
    }

    /** The `i`-th turn of `visit_function_call`'s loop: a null child is skipped. */
    method VisitCallChildAt(constants: string -> Option<ConstDecl>, n: AstNode, i: nat, ghost before: WorkspaceIndex)
      requires Valid() && i < |n.children|
      requires Index() == ApplyEdges(before, CallChildrenEdges(constants, n, i))
      modifies this, Repr`referencedBy
      ensures Grown()
      ensures Index() == ApplyEdges(before, CallChildrenEdges(constants, n, i + 1))
      decreases n, 0, i
    {
      ghost var start := Index();
      if n.children[i].Some? {
        var c := n.children[i].value;
        Accept(constants, c);
        CallChildSome(constants, n, i);
        ApplyEdgesChain(before, start, Index(), CallChildrenEdges(constants, n, i), Visit(constants, c));
      } else {
        CallChildNone(constants, n, i);
      }
    }

    /** `visit_children`: for each non-null child, its folded-constant edge and then its visit. */
    method VisitChildren(constants: string -> Option<ConstDecl>, n: AstNode)
      requires Valid()
      modifies this, Repr`referencedBy
      ensures Grown()
      ensures Index() == ApplyEdges(old(Index()), ChildrenEdges(constants, n, |n.children|))
      decreases n, 0
    {
      ghost var before := Index();
      NoKids(constants, n, before);
      var i := 0;
      while i < |n.children|
        invariant 0 <= i <= |n.children|
        invariant Grown()
        invariant Index() == ApplyEdges(before, ChildrenEdges(constants, n, i))
      {
        VisitChildAt(constants, n, i, before);
        i := i + 1;
      }
      KidsDone(Index(), before, constants, n, i);
    }

    /** The `i`-th turn of `visit_children`'s loop: a null child is skipped. */
    method VisitChildAt(constants: string -> Option<ConstDecl>, n: AstNode, i: nat, ghost before: WorkspaceIndex)
      requires Valid() && i < |n.children|
      requires Index() == ApplyEdges(before, ChildrenEdges(constants, n, i))
      modifies this, Repr`referencedBy
      ensures Grown()
      ensures Index() == ApplyEdges(before, ChildrenEdges(constants, n, i + 1))
      decreases n, 0, i
    {
      ghost var start := Index();
      if n.children[i].Some? {
        var c := n.children[i].value;
        VisitChild(constants, c);
        ChildSome(constants, n, i);
        ApplyEdgesChain(before, start, Index(), ChildrenEdges(constants, n, i), UnoptimizedEdges(constants, c) + Visit(constants, c));
      } else {
        ChildNone(constants, n, i);
      }
    }

    /** One step of `visit_children`: the child's folded-constant edge, then its visit. */
    method VisitChild(constants: string -> Option<ConstDecl>, c: AstNode)
      requires Valid()
      modifies this, Repr`referencedBy
      ensures Grown()
      ensures Index() == ApplyEdges(old(Index()), UnoptimizedEdges(constants, c) + Visit(constants, c))
      decreases c, 3
    {
      ghost var before := Index();
      AddUnoptimizedConstantReference(constants, c);
      ghost var mid := Index();
      Accept(constants, c);
      ApplyEdgesChain(before, mid, Index(), UnoptimizedEdges(constants, c), Visit(constants, c));
    }

    /** `build_references`: the top-level statements, the program if any, then each user function. */
    method BuildReferences(cw: CompilerWorkspace)
      requires Valid()
      modifies this, Repr`referencedBy
      ensures Grown()
      ensures Index() == ApplyEdges(old(Index()), DocumentEdges(cw))
    {
      ghost var before := Index();
      ghost var top := Visit(cw.constants, cw.topLevelStatements);
      ghost var programEdges := if cw.programNode.Some? then Visit(cw.constants, cw.programNode.value) else [];
      Accept(cw.constants, cw.topLevelStatements);
      ghost var mid := Index();
      if cw.programNode.Some? {
        Accept(cw.constants, cw.programNode.value);
      } else {
        NoEdge(mid, programEdges);
      }
      ghost var mid2 := Index();
      ApplyEdgesChain(before, mid, mid2, top, programEdges);
      VisitUserFunctions(cw.constants, cw.userFunctionNodes);
      ApplyEdgesChain(before, mid2, Index(), top + programEdges, FunctionsEdges(cw.constants, cw.userFunctionNodes));
    }

    /** The loop of `build_references` over the user functions. */
    method VisitUserFunctions(constants: string -> Option<ConstDecl>, fs: seq<AstNode>)
      requires Valid()
      modifies this, Repr`referencedBy
      ensures Grown()
      ensures Index() == ApplyEdges(old(Index()), FunctionsEdges(constants, fs))
    {
      ghost var before := Index();
      NoFunctions(constants, fs, before);
      var i := 0;
      while i < |fs|
        invariant 0 <= i <= |fs|
        invariant Grown()
        invariant Index() == ApplyEdges(before, FunctionsEdges(constants, fs[..i]))
      {
        ghost var mid := Index();
        Accept(constants, fs[i]);
        FunctionsStep(constants, fs, i);
        ApplyEdgesChain(before, mid, Index(), FunctionsEdges(constants, fs[..i]), Visit(constants, fs[i]));
        i := i + 1;
      }
      FunctionsDone(Index(), before, constants, fs, i);
    }

    /**
     * `LSPDocument::Analyze`: clear the report, reset the compiler result,
     * compile, and build references only when a workspace came back.
     * `compilerIncludes` says whether the workspace's `make_compiler` already
     * sets the include compile mode; otherwise only an include file sets it.
     */
    method AnalyzeDocument(doc: LSPDocument, compile: Compile, compilerIncludes: bool, continueOnError: bool) returns (r: Result<()>)
      requires Valid() && doc.pathname in cache && cache[doc.pathname] == doc
      modifies this, doc`compilerWorkspace, doc`diagnostics, Repr`referencedBy
      ensures Grown()
      ensures var out := compile(doc.pathname, compilerIncludes || doc.docType == INC, doc.docType == EM, continueOnError);
        doc.diagnostics == out.reported &&
        (out.Threw? ==> r == Failure(out.message) && doc.compilerWorkspace.None? && Index() == old(Index())) &&
        (out.Compiled? ==> (r == Success(()) && doc.compilerWorkspace == out.workspace &&
          Index() == (if out.workspace.Some? then ApplyEdges(old(Index()), DocumentEdges(out.workspace.value)) else old(Index()))))
    {
      var out := RunCompiler(doc, compile, compilerIncludes, continueOnError);
      match out
      case Threw(message, _) =>
        r := Failure(message);
      case Compiled(workspace, _) =>
        if workspace.Some? {
          BuildReferences(workspace.value);
        }
        r := Success(());
    }

    /** The part of `LSPDocument::Analyze` that touches only the document: reset, compile, keep the report and the result. */
    method RunCompiler(doc: LSPDocument, compile: Compile, compilerIncludes: bool, continueOnError: bool) returns (out: CompileOutcome)
      modifies doc`compilerWorkspace, doc`diagnostics
      ensures out == compile(doc.pathname, compilerIncludes || doc.docType == INC, doc.docType == EM, continueOnError)
      ensures doc.diagnostics == out.reported
      ensures doc.compilerWorkspace == if out.Compiled? then out.workspace else None
    {
      doc.diagnostics := [];
      doc.compilerWorkspace := None;
      var includeMode := compilerIncludes;
      if doc.docType == INC {
        includeMode := true;
      }
      out := compile(doc.pathname, includeMode, doc.docType == EM, continueOnError);
      doc.diagnostics := out.reported;
      if out.Compiled? {
        doc.compilerWorkspace := out.workspace;
      }
    }

    /**
     * `Analyze`: "Document not opened" for an uncached path, else the
     * document's analysis with this workspace's compiler, which is always in
     * include compile mode.
     */
    method Analyze(pathname: string, compile: Compile) returns (r: Result<()>)
      requires Valid()
      modifies this, Repr
      ensures Grown()
      ensures pathname !in old(cache) ==> r == Failure(NotOpened) && cache == old(cache)
      ensures pathname in old(cache) ==> var doc := old(cache)[pathname];
        var out := compile(pathname, true, doc.docType == EM, true);
        doc.diagnostics == out.reported &&
        (out.Threw? ==> r == Failure(out.message) && doc.compilerWorkspace.None? && Index() == old(Index())) &&
        (out.Compiled? ==> (r == Success(()) && doc.compilerWorkspace == out.workspace &&
          Index() == (if out.workspace.Some? then ApplyEdges(old(Index()), DocumentEdges(out.workspace.value)) else old(Index())))) &&
        WorkspaceIncludes(Index(), old(Index()))
    {
      if pathname !in cache {
        return Failure(NotOpened);
      }
      var doc := cache[pathname];
      ghost var before := Index();
      r := AnalyzeDocument(doc, compile, true, true);
      var out := compile(pathname, true, doc.docType == EM, true);
      if out.Compiled? && out.workspace.Some? {
        ApplyEdgesGrows(before, DocumentEdges(out.workspace.value));
      }
    }

    /** `Diagnostics`: every reported diagnostic of the document, in report order. */
    method Diagnostics(pathname: string) returns (r: Result<seq<LspDiagnostic>>)
      ensures pathname !in cache ==> r == Failure(NotOpened)
      ensures pathname in cache ==> r == Success(AllDiagnostics(cache[pathname].diagnostics))
    {
      if pathname !in cache {
        return Failure(NotOpened);
      }
      var ds := cache[pathname].diagnostics;
      var results := [];
      var i := 0;
      while i < |ds|
        invariant 0 <= i <= |ds|
        invariant |results| == i && forall k :: 0 <= k < i ==> results[k] == ToLsp(ds[k])
      {
        results := results + [ToLsp(ds[i])];
        i := i + 1;
      }
      assert results == AllDiagnostics(ds);
      r := Success(results);
    }

    /** `Tokens`: one row per semantic token of the last analysis, none before a successful one. */
    method Tokens(pathname: string) returns (r: Result<seq<seq<int>>>)
      ensures pathname !in cache ==> r == Failure(NotOpened)
      ensures pathname in cache && cache[pathname].compilerWorkspace.None? ==> r == Success([])
      ensures pathname in cache && cache[pathname].compilerWorkspace.Some? ==>
        var ts := cache[pathname].compilerWorkspace.value.semanticTokens;
        r.Success? && |r.value| == |ts| && forall k :: 0 <= k < |ts| ==> r.value[k] == TokenRow(ts[k])
    {
      if pathname !in cache {
        return Failure(NotOpened);
      }
      var doc := cache[pathname];
      var results: seq<seq<int>> := [];
      if doc.compilerWorkspace.Some? {
        var ts := doc.compilerWorkspace.value.semanticTokens;
        var i := 0;
        while i < |ts|
          invariant 0 <= i <= |ts|
          invariant |results| == i && forall k :: 0 <= k < i ==> results[k] == TokenRow(ts[k])
        {
          results := results + [[ts[i].line - 1, ts[i].column - 1, ts[i].length, ts[i].tokenType, 0]];
          i := i + 1;
        }
      }
      r := Success(results);
    }

    /** A document depends on `pathname`: another analysed document whose referenced files include it. */
    ghost predicate IsDependee(p: string, pathname: string)
      reads this, cache.Values
    {
      p in cache && cache[p].pathname != pathname && cache[p].compilerWorkspace.Some? &&
      pathname in cache[p].compilerWorkspace.value.referencedPaths
    }

    /** `Dependees`: every dependee, once, in the cache's key order; never the path itself. */
    method Dependees(pathname: string) returns (results: seq<string>)
      requires Valid()
      ensures forall p :: p in results <==> IsDependee(p, pathname)
      ensures KeysIncreasing(results)
      ensures pathname !in results
    {
      results := [];
      var remaining := cache.Keys;
      while remaining != {}
        invariant remaining <= cache.Keys
        invariant forall p :: p in results <==> p in cache.Keys - remaining && IsDependee(p, pathname)
        invariant Below(results, remaining)
        decreases remaining
      {
        var key := FirstKey(remaining);
        var doc := cache[key];
        var found := false;
        if doc.pathname != pathname && doc.compilerWorkspace.Some? {
          found := Mentions(doc.compilerWorkspace.value.referencedPaths, pathname);
        }
        assert found <==> IsDependee(key, pathname);
        ghost var before := results;
        if found {
          results := results + [doc.pathname];
        }
        BelowStep(before, results, remaining, key);
        remaining := remaining - {key};
      }
    }

    /**
     * `get_contents`: for a cached path, the editor's callback, which must
     * give a string; for any other path, the base loader.
     */
    function GetContents(pathname: string, callback: string -> Option<string>, baseLoader: string -> string): (r: Result<string>)
      reads this
      ensures pathname !in cache ==> r == Success(baseLoader(pathname))
      ensures pathname in cache ==> (r.Failure? <==> callback(pathname).None?)
      ensures pathname in cache && callback(pathname).Some? ==> r == Success(callback(pathname).value)
      ensures r.Failure? ==> r.error == NoContents
    {
      if pathname in cache then
        (match callback(pathname)
         case Some(text) => Success(text)
         case None => Failure(NoContents))
      else Success(baseLoader(pathname))
    }

    /**
     * `ReferencesFinder::get_references_by_definition`: the set stored in the
     * defining document under the range, through `create_or_get_from_cache`,
     * so the defining document need not have been opened.
     */
    method GetReferencesByDefinition(pathname: string, range: Range) returns (r: Option<seq<ReferenceLocation>>)
      requires Valid()
      modifies this
      ensures Grown()
      ensures r == Lookup(old(Index()), pathname, range)
      ensures Index() == old(Index())[pathname := DocumentIndex(old(Index()), pathname)]
    {
      var doc := CreateOrGetFromCache(pathname);
      if range in doc.referencedBy {
        r := Some(doc.referencedBy[range]);
      } else {
        r := None;
      }
    }
  }
  /** Applying a list of at most one edge. */
  lemma SingleEdge(idx: WorkspaceIndex, es: seq<Edge>)
    requires |es| == 1
    ensures ApplyEdges(idx, es) == AddEdge(idx, es[0])
  {
  }

  lemma NoEdge(idx: WorkspaceIndex, es: seq<Edge>)
    requires es == []
    ensures ApplyEdges(idx, es) == idx
  {
  }

  /** Two runs of edges, one after the other. */
  lemma ApplyEdgesChain(idx: WorkspaceIndex, mid: WorkspaceIndex, after: WorkspaceIndex, a: seq<Edge>, b: seq<Edge>)
    requires mid == ApplyEdges(idx, a) && after == ApplyEdges(mid, b)
    ensures after == ApplyEdges(idx, a + b)
  {
    ApplyEdgesAppend(idx, a, b);
  }

  /** `visit_identifier`'s edges: the variable's, then the children's. */
  lemma IdentifierEdges(constants: string -> Option<ConstDecl>, n: AstNode)
    requires n.kind.IdentifierNode?
    ensures Visit(constants, n) == VariableEdges(n.kind.variable, n.location) + ChildrenEdges(constants, n, |n.children|)
  {
  }

  /** A float, integer, string or uninitialized value has only its folded-constant edge. */
  lemma ValueEdges(constants: string -> Option<ConstDecl>, n: AstNode)
    requires n.kind.ValueNode? && n.kind.valueKind != OtherValue
    ensures Visit(constants, n) == UnoptimizedEdges(constants, n)
  {
  }

  /** Any other node, other values included, has only its children's edges. */
  lemma OtherEdges(constants: string -> Option<ConstDecl>, n: AstNode)
    requires !n.kind.IdentifierNode? && !n.kind.FunctionCallNode? && !(n.kind.ValueNode? && n.kind.valueKind != OtherValue)
    ensures Visit(constants, n) == ChildrenEdges(constants, n, |n.children|)
  {
  }

  /** `visit_function_call`'s edges: the linked function's, then the children's. */
  lemma CallNodeEdges(constants: string -> Option<ConstDecl>, n: AstNode)
    requires n.kind.FunctionCallNode?
    ensures Visit(constants, n) == CallEdges(n.kind.link, n.location) + CallChildrenEdges(constants, n, |n.children|)
  {
  }

  /** Before the children loops, no child has contributed an edge. */
  lemma NoKids(constants: string -> Option<ConstDecl>, n: AstNode, idx: WorkspaceIndex)
    ensures idx == ApplyEdges(idx, ChildrenEdges(constants, n, 0))
  {
  }

  lemma NoCallKids(constants: string -> Option<ConstDecl>, n: AstNode, idx: WorkspaceIndex)
    ensures idx == ApplyEdges(idx, CallChildrenEdges(constants, n, 0))
  {
  }

  /** One turn of `visit_children` over a present child. */
  lemma ChildSome(constants: string -> Option<ConstDecl>, n: AstNode, i: nat)
    requires i < |n.children| && n.children[i].Some?
    ensures ChildrenEdges(constants, n, i + 1) ==
      ChildrenEdges(constants, n, i) + (UnoptimizedEdges(constants, n.children[i].value) + Visit(constants, n.children[i].value))
  {
  }

  /** One turn of `visit_children` over a null child. */
  lemma ChildNone(constants: string -> Option<ConstDecl>, n: AstNode, i: nat)
    requires i < |n.children| && n.children[i].None?
    ensures ChildrenEdges(constants, n, i + 1) == ChildrenEdges(constants, n, i)
  {
  }

  lemma CallChildSome(constants: string -> Option<ConstDecl>, n: AstNode, i: nat)
    requires i < |n.children| && n.children[i].Some?
    ensures CallChildrenEdges(constants, n, i + 1) == CallChildrenEdges(constants, n, i) + Visit(constants, n.children[i].value)
  {
  }

  lemma CallChildNone(constants: string -> Option<ConstDecl>, n: AstNode, i: nat)
    requires i < |n.children| && n.children[i].None?
    ensures CallChildrenEdges(constants, n, i + 1) == CallChildrenEdges(constants, n, i)
  {
  }

  /** Before the user-function loop, no function has contributed an edge. */
  lemma NoFunctions(constants: string -> Option<ConstDecl>, fs: seq<AstNode>, idx: WorkspaceIndex)
    ensures idx == ApplyEdges(idx, FunctionsEdges(constants, fs[..0]))
  {
    assert fs[..0] == [];
  }

  /** One turn of the user-function loop. */
  lemma FunctionsStep(constants: string -> Option<ConstDecl>, fs: seq<AstNode>, i: nat)
    requires i < |fs|
    ensures FunctionsEdges(constants, fs[..i + 1]) == FunctionsEdges(constants, fs[..i]) + Visit(constants, fs[i])
  {
    assert fs[..i + 1][..i] == fs[..i];
  }

  /** After the user-function loop, every function has contributed. */
  lemma FunctionsDone(idx: WorkspaceIndex, before: WorkspaceIndex, constants: string -> Option<ConstDecl>, fs: seq<AstNode>, i: nat)
    requires i == |fs| && idx == ApplyEdges(before, FunctionsEdges(constants, fs[..i]))
    ensures idx == ApplyEdges(before, FunctionsEdges(constants, fs))
  {
    assert fs[..i] == fs;
  }

  /** After the children loops, every child has contributed. */
  lemma KidsDone(idx: WorkspaceIndex, before: WorkspaceIndex, constants: string -> Option<ConstDecl>, n: AstNode, i: nat)
    requires i == |n.children| && idx == ApplyEdges(before, ChildrenEdges(constants, n, i))
    ensures idx == ApplyEdges(before, ChildrenEdges(constants, n, |n.children|))
  {
  }

  lemma CallKidsDone(idx: WorkspaceIndex, before: WorkspaceIndex, constants: string -> Option<ConstDecl>, n: AstNode, i: nat)
    requires i == |n.children| && idx == ApplyEdges(before, CallChildrenEdges(constants, n, i))
    ensures idx == ApplyEdges(before, CallChildrenEdges(constants, n, |n.children|))
  {
  }

  /** Writing `p` twice keeps only the second value. */
  lemma UpdatedTwice(idx: WorkspaceIndex, p: string, v: RefIndex, w: RefIndex)
    ensures idx[p := v][p := w] == idx[p := w]
  {
  }

  /** Writing back the value already held changes nothing. */
  lemma SameAt(idx: WorkspaceIndex, p: string)
    requires p in idx
    ensures idx == idx[p := DocumentIndex(idx, p)]
  {
  }
}
