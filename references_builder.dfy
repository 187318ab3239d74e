/**
 * What `ReferencesBuilder` records while it visits the resolved AST of an
 * analysed document: one edge per use of a variable, a constant or a
 * function, from the definition's range (in the definition's document) to
 * the use's location.
 *
 * `Visit` lists the edges in the order the visitor adds them; the
 * `LspWorkspace` module has the visitor itself, which writes each edge into
 * the defining document and is proved to apply exactly this list.
 */
module ReferencesBuilder {
  import opened Common
  import opened CompilerModel

  /** An edge: the definition's document and range, and the use's pathname and range. */
  datatype Edge = Edge(definitionPath: string, definedAt: Range, usedPathname: string, usedRange: Range)

  /**
   * The range of a function's name: the start position of the location
   * (line and column; the token index is not copied) to the same line at the
   * column after the name, as an `unsigned short`.
   */
  function NameSpan(start: Position, nameLength: nat): (r: Range)
    ensures r.start == At(start.line, start.column)
    ensures r.end.line == start.line && r.end.tokenIndex == 0
    ensures start.column + nameLength < 65536 ==> r.end.column == start.column + nameLength
  {
    Range(At(start.line, start.column), At(start.line, UShort(start.column + nameLength)))
  }

  /** `add_function_reference`: both spans use the definition's name length. */
  function FunctionEdge(f: FunctionRef, call: SourceLocation): (e: Edge)
    ensures e.definitionPath == f.location.pathname && e.usedPathname == call.pathname
    ensures e.definedAt == NameSpan(f.location.range.start, |f.name|)
    ensures e.usedRange == NameSpan(call.range.start, |f.name|)
  {
    Edge(f.location.pathname, NameSpan(f.location.range.start, |f.name|),
         call.pathname, NameSpan(call.range.start, |f.name|))
  }

  /** The edge of a resolved function call: the user function when linked, else the module function. */
  function CallEdges(link: Option<FunctionLink>, call: SourceLocation): (es: seq<Edge>)
    ensures |es| <= 1
    ensures link.Some? && link.value.userFunction.Some? ==> es == [FunctionEdge(link.value.userFunction.value, call)]
    ensures link.Some? && link.value.userFunction.None? && link.value.moduleFunction.Some? ==>
      es == [FunctionEdge(link.value.moduleFunction.value, call)]
    ensures es == [] <==> link.None? || (link.value.userFunction.None? && link.value.moduleFunction.None?)
  {
    match link
    case None => []
    case Some(l) =>
      if l.userFunction.Some? then [FunctionEdge(l.userFunction.value, call)]
      else if l.moduleFunction.Some? then [FunctionEdge(l.moduleFunction.value, call)]
      else []
  }

  /** The edge of an identifier resolved to a variable: from the variable's location to the identifier's. */
  function VariableEdges(variable: Option<Variable>, use: SourceLocation): (es: seq<Edge>)
    ensures variable.None? ==> es == []
    ensures variable.Some? ==> es == [Edge(variable.value.location.pathname, variable.value.location.range, use.pathname, use.range)]
  {
    match variable
    case None => []
    case Some(v) => [Edge(v.location.pathname, v.location.range, use.pathname, use.range)]
  }

  /**
   * `add_unoptimized_constant_reference`: a node folded from an identifier
   * that names a known constant gets an edge from that constant.
   */
  function UnoptimizedEdges(constants: string -> Option<ConstDecl>, n: AstNode): (es: seq<Edge>)
    ensures |es| <= 1
    ensures es != [] <==> (n.unoptimized.Some? && n.unoptimized.value.kind.IdentifierNode? &&
      constants(n.unoptimized.value.kind.identifierName).Some?)
    ensures es != [] ==> var c := constants(n.unoptimized.value.kind.identifierName).value;
      es == [Edge(c.location.pathname, c.location.range, n.location.pathname, n.location.range)]
  {
    match n.unoptimized
    case None => []
    case Some(u) =>
      if u.kind.IdentifierNode? then
        (match constants(u.kind.identifierName)
         case Some(c) => [Edge(c.location.pathname, c.location.range, n.location.pathname, n.location.range)]
         case None => [])
      else []
  }

  /** The edges of `n.accept(builder)`, in the order they are added. */
  function Visit(constants: string -> Option<ConstDecl>, n: AstNode): seq<Edge>
    decreases n, 1
  {
    match n.kind
    case IdentifierNode(_, variable) => VariableEdges(variable, n.location) + ChildrenEdges(constants, n, |n.children|)
    case FunctionCallNode(_, _, link) => CallEdges(link, n.location) + CallChildrenEdges(constants, n, |n.children|)
    case ValueNode(k, _) => if k != OtherValue then UnoptimizedEdges(constants, n) else ChildrenEdges(constants, n, |n.children|)
    case _ => ChildrenEdges(constants, n, |n.children|)
  }

  /** `visit_children` over the first `i` children: skip null, the folded-constant edge, then the child's visit. */
  function ChildrenEdges(constants: string -> Option<ConstDecl>, n: AstNode, i: nat): seq<Edge>
    requires i <= |n.children|
    decreases n, 0, i
  {
    if i == 0 then []
    else
      ChildrenEdges(constants, n, i - 1) +
      (match n.children[i - 1]
       case None => []
       case Some(c) => UnoptimizedEdges(constants, c) + Visit(constants, c))
  }

  /** A function call's own child loop: null children are skipped, no folded-constant edge. */
  function CallChildrenEdges(constants: string -> Option<ConstDecl>, n: AstNode, i: nat): seq<Edge>
    requires i <= |n.children|
    decreases n, 0, i
  {
    if i == 0 then []
    else
      CallChildrenEdges(constants, n, i - 1) +
      (match n.children[i - 1]
       case None => []
       case Some(c) => Visit(constants, c))
  }

  /** Program and user functions, when present, after the top-level statements (`build_references`). */
  function FunctionsEdges(constants: string -> Option<ConstDecl>, fs: seq<AstNode>): seq<Edge>
  {
    if fs == [] then [] else FunctionsEdges(constants, fs[..|fs| - 1]) + Visit(constants, fs[|fs| - 1])
  }

  function DocumentEdges(cw: CompilerWorkspace): seq<Edge>
  {
    Visit(cw.constants, cw.topLevelStatements) +
    (if cw.programNode.Some? then Visit(cw.constants, cw.programNode.value) else []) +
    FunctionsEdges(cw.constants, cw.userFunctionNodes)
  }

  // ---------------------------------------------------------------------
  // Properties of the edges

  /** A user-function link is recorded in preference to a module-function link. */
  lemma UserFunctionPreferred(name: string, params: Option<seq<Param>>, u: FunctionRef, m: FunctionRef,
                              loc: SourceLocation, children: seq<Option<AstNode>>, constants: string -> Option<ConstDecl>)
    ensures var n := AstNode(FunctionCallNode(name, params, Some(FunctionLink(Some(u), Some(m)))), loc, children, None);
      Visit(constants, n)[0] == FunctionEdge(u, loc)
  {
  }

  /** An identifier without a variable adds nothing of its own; its children are still visited. */
  lemma UnresolvedIdentifierVisitsChildren(constants: string -> Option<ConstDecl>, n: AstNode)
    requires n.kind.IdentifierNode? && n.kind.variable.None?
    ensures Visit(constants, n) == ChildrenEdges(constants, n, |n.children|)
  {
  }

  /** Null children add no edges. */
  lemma NullChildrenSkipped(constants: string -> Option<ConstDecl>, n: AstNode, i: nat)
    requires i < |n.children| && n.children[i].None?
    ensures ChildrenEdges(constants, n, i + 1) == ChildrenEdges(constants, n, i)
    ensures CallChildrenEdges(constants, n, i + 1) == CallChildrenEdges(constants, n, i)
  {
  }

  /** The use's span has the definition's name length, whatever the text at the call. */
  lemma UsedSpanHasDefinitionLength(f: FunctionRef, call: SourceLocation)
    requires call.range.start.column + |f.name| < 65536
    ensures var e := FunctionEdge(f, call);
      e.usedRange.end.column - e.usedRange.start.column == |f.name| &&
      e.usedRange.start.line == e.usedRange.end.line == call.range.start.line
  {
  }

  /** Every edge of a visit is written to the definition's document and tagged with the use's pathname. */
  predicate FromDefinitionToUse(e: Edge, n: AstNode)
  {
    match n.kind
    case IdentifierNode(_, variable) =>
      variable.Some? && e == Edge(variable.value.location.pathname, variable.value.location.range, n.location.pathname, n.location.range)
    case FunctionCallNode(_, _, link) => CallEdges(link, n.location) == [e]
    case _ => false
  }

  /** An identifier resolved to a variable yields its edge first. */
  lemma ResolvedIdentifierEdge(constants: string -> Option<ConstDecl>, n: AstNode)
    requires n.kind.IdentifierNode? && n.kind.variable.Some?
    ensures |Visit(constants, n)| >= 1 && FromDefinitionToUse(Visit(constants, n)[0], n)
  {
  }

  /** A call whose user function is linked yields the edge of that function. */
  lemma LinkedCallEdge(constants: string -> Option<ConstDecl>, n: AstNode)
    requires n.kind.FunctionCallNode? && n.kind.link.Some? &&
      (n.kind.link.value.userFunction.Some? || n.kind.link.value.moduleFunction.Some?)
    ensures |Visit(constants, n)| >= 1 && FromDefinitionToUse(Visit(constants, n)[0], n)
  {
  }
}
