/**
 * `ReferencesFinder`: the projection of the position-to-symbol engine that
 * answers "find all references". Each hook turns the declaration under the
 * cursor into the key `ReferencesBuilder` inserted its uses under, and looks
 * that key up in the defining document's `referenced_by`.
 *
 * The key round trip is the point: a function is queried under the span of
 * its name from the start of its location, exactly the range
 * `add_function_reference` inserts under; variables, constants and
 * parameters under their unmodified location.
 */
module ReferencesFinder {
  import opened Common
  import opened CompilerModel
  import opened LocationOrder
  import opened ContextBuilder
  import opened ReferencesBuilder
  import opened LspWorkspace
  import DefinitionBuilder

  /** The key a function is queried under: its path, and the span of its name from the start of its location. */
  function FunctionKey(name: string, location: SourceLocation): (r: (string, Range))
    ensures r.0 == location.pathname
    ensures r.1.start == At(location.range.start.line, location.range.start.column)
    ensures r.1.end.line == location.range.start.line
    ensures location.range.start.column + |name| < 65536 ==> r.1.end.column == location.range.start.column + |name|
  {
    (location.pathname, NameSpan(location.range.start, |name|))
  }

  /** `get_references_by_definition(source_location)`: the set under the location's own range. */
  function LocationReferences(idx: WorkspaceIndex, loc: SourceLocation): Option<seq<ReferenceLocation>>
  {
    Lookup(idx, loc.pathname, loc.range)
  }

  function FunctionReferences(idx: WorkspaceIndex, name: string, location: SourceLocation): Option<seq<ReferenceLocation>>
  {
    var key := FunctionKey(name, location);
    Lookup(idx, key.0, key.1)
  }

  /** `get_program_parameter`: the references of the program's first parameter with that name. */
  function ProgramParameterReferences(ws: CompilerWorkspace, idx: WorkspaceIndex, name: string): Option<seq<ReferenceLocation>>
  {
    match DefinitionBuilder.ProgramParameterTarget(ws, name)
    case Some(loc) => LocationReferences(idx, loc)
    case None => None
  }

  /**
   * The hooks of `ReferencesFinder` over a snapshot `idx` of the workspace's
   * indexes: module-function parameters, programs, includes, modules,
   * classes, members and methods keep the base class's `std::nullopt`.
   */
  function ReferenceHooks(ws: CompilerWorkspace, idx: WorkspaceIndex): (h: Hooks<seq<ReferenceLocation>>)
    ensures forall v :: h.getVariable(v) == Lookup(idx, v.location.pathname, v.location.range)
    ensures forall c :: h.getConstant(c) == Lookup(idx, c.location.pathname, c.location.range)
    ensures forall u, p :: h.getUserFunctionParameter(u, p) == Lookup(idx, p.location.pathname, p.location.range)
    ensures forall m :: h.getModuleFunction(m) == Lookup(idx, m.location.pathname, NameSpan(m.location.range.start, |m.name|))
    ensures forall u :: h.getUserFunction(u) == Lookup(idx, u.location.pathname, NameSpan(u.location.range.start, |u.name|))
    ensures forall n :: h.getProgramParameter(n) == ProgramParameterReferences(ws, idx, n)
    ensures forall m, p :: h.getModuleFunctionParameter(m, p).None?
    ensures forall n, p :: h.getProgram(n, p).None?
    ensures forall n :: h.getInclude(n).None? && h.getModule(n).None? && h.getClass(n).None?
    ensures forall n :: h.getMember(n).None? && h.getMethod(n).None?
  {
    Hooks(
      (v: Variable) => LocationReferences(idx, v.location),
      (c: ConstDecl) => LocationReferences(idx, c.location),
      (m: ModuleFunction) => FunctionReferences(idx, m.name, m.location),
      (m: ModuleFunction, p: Param) => None,
      (u: UserFunction) => FunctionReferences(idx, u.name, u.location),
      (u: UserFunction, p: Param) => LocationReferences(idx, p.location),
      (n: string, p: Program) => None,
      (n: string) => ProgramParameterReferences(ws, idx, n),
      (n: string) => None,
      (n: string) => None,
      (n: string) => None,
      (n: string) => None,
      (n: string) => None)
  }

  /** A program parameter is queried by the first parameter with that name; with none there is no answer. */
  lemma ProgramParameterFirstMatch(ws: CompilerWorkspace, idx: WorkspaceIndex, name: string)
    ensures ws.program.None? || (forall p :: p in ws.program.value.parameters ==> p.name != name) ==>
      ProgramParameterReferences(ws, idx, name).None?
    ensures ws.program.Some? && 0 < |ws.program.value.parameters| && ws.program.value.parameters[0].name == name ==>
      ProgramParameterReferences(ws, idx, name) == LocationReferences(idx, ws.program.value.parameters[0].location)
  {
  }

  // ---------------------------------------------------------------------
  // The key round trip

  /**
   * The key a user function is queried under is the key its call edge was
   * inserted under: once a call edge of the same declaration is written,
   * the query finds a set that holds the call's span.
   */
  lemma UserFunctionRoundTrip(ws: CompilerWorkspace, idx: WorkspaceIndex, es: seq<Edge>, f: FunctionRef, call: SourceLocation, u: UserFunction)
    requires FunctionEdge(f, call) in es
    requires u.name == f.name && u.location == f.location
    ensures var r := ReferenceHooks(ws, ApplyEdges(idx, es)).getUserFunction(u);
      r.Some? && SetHas(r.value, ReferenceLocation(call.pathname, NameSpan(call.range.start, |f.name|)))
  {
    ApplyEdgesRecords(idx, es, FunctionEdge(f, call));
  }

  /** The same round trip for a module function. */
  lemma ModuleFunctionRoundTrip(ws: CompilerWorkspace, idx: WorkspaceIndex, es: seq<Edge>, f: FunctionRef, call: SourceLocation, m: ModuleFunction)
    requires FunctionEdge(f, call) in es
    requires m.name == f.name && m.location == f.location
    ensures var r := ReferenceHooks(ws, ApplyEdges(idx, es)).getModuleFunction(m);
      r.Some? && SetHas(r.value, ReferenceLocation(call.pathname, NameSpan(call.range.start, |f.name|)))
  {
    ApplyEdgesRecords(idx, es, FunctionEdge(f, call));
  }

  /** A variable's use, once written, is found by querying the variable. */
  lemma VariableRoundTrip(ws: CompilerWorkspace, idx: WorkspaceIndex, es: seq<Edge>, v: Variable, use: SourceLocation)
    requires VariableEdges(Some(v), use)[0] in es
    ensures var r := ReferenceHooks(ws, ApplyEdges(idx, es)).getVariable(v);
      r.Some? && SetHas(r.value, ReferenceLocation(use.pathname, use.range))
  {
    ApplyEdgesRecords(idx, es, VariableEdges(Some(v), use)[0]);
  }

  /** A folded constant's use, once written, is found by querying the constant. */
  lemma ConstantRoundTrip(ws: CompilerWorkspace, idx: WorkspaceIndex, es: seq<Edge>, constants: string -> Option<ConstDecl>, n: AstNode)
    requires UnoptimizedEdges(constants, n) != [] && UnoptimizedEdges(constants, n)[0] in es
    ensures var c := constants(n.unoptimized.value.kind.identifierName).value;
      var r := ReferenceHooks(ws, ApplyEdges(idx, es)).getConstant(c);
      r.Some? && SetHas(r.value, ReferenceLocation(n.location.pathname, n.location.range))
  {
    ApplyEdgesRecords(idx, es, UnoptimizedEdges(constants, n)[0]);
  }

  /** A parameter is queried under its own location: a use written under it is found. */
  lemma ParameterRoundTrip(ws: CompilerWorkspace, idx: WorkspaceIndex, es: seq<Edge>, u: UserFunction, p: Param, use: SourceLocation)
    requires Edge(p.location.pathname, p.location.range, use.pathname, use.range) in es
    ensures var r := ReferenceHooks(ws, ApplyEdges(idx, es)).getUserFunctionParameter(u, p);
      r.Some? && SetHas(r.value, ReferenceLocation(use.pathname, use.range))
  {
    ApplyEdgesRecords(idx, es, Edge(p.location.pathname, p.location.range, use.pathname, use.range));
  }

  // ---------------------------------------------------------------------
  // The hooks against the workspace

  /** `get_references_by_definition(source_location)`: a lookup, after which the defining document is cached. */
  method GetReferencesByLocation(lsp: LSPWorkspace, loc: SourceLocation) returns (r: Option<seq<ReferenceLocation>>)
    requires lsp.Valid()
    modifies lsp
    ensures lsp.Valid() && lsp.Retains(old(lsp.cache)) && fresh(lsp.Repr - old(lsp.Repr))
    ensures r == LocationReferences(old(lsp.Index()), loc)
    ensures lsp.Index() == old(lsp.Index())[loc.pathname := DocumentIndex(old(lsp.Index()), loc.pathname)]
  {
    r := lsp.GetReferencesByDefinition(loc.pathname, loc.range);
  }

  /** `get_user_function` and `get_module_function`: the lookup under the name's span. */
  method GetFunctionReferences(lsp: LSPWorkspace, name: string, location: SourceLocation) returns (r: Option<seq<ReferenceLocation>>)
    requires lsp.Valid()
    modifies lsp
    ensures lsp.Valid() && lsp.Retains(old(lsp.cache)) && fresh(lsp.Repr - old(lsp.Repr))
    ensures r == FunctionReferences(old(lsp.Index()), name, location)
    ensures lsp.Index() == old(lsp.Index())[location.pathname := DocumentIndex(old(lsp.Index()), location.pathname)]
  {
    var start := location.range.start;
    var range := Range(At(start.line, start.column), At(start.line, UShort(start.column + |name|)));
    r := lsp.GetReferencesByDefinition(location.pathname, range);
  }

  /** `get_program_parameter`: the search loop, then the lookup of the match; no match leaves the cache alone. */
  method GetProgramParameterReferences(lsp: LSPWorkspace, ws: CompilerWorkspace, name: string) returns (r: Option<seq<ReferenceLocation>>)
    requires lsp.Valid()
    modifies lsp
    ensures lsp.Valid() && lsp.Retains(old(lsp.cache)) && fresh(lsp.Repr - old(lsp.Repr))
    ensures r == ProgramParameterReferences(ws, old(lsp.Index()), name)
  {
    var loc := DefinitionBuilder.GetProgramParameter(ws, name);
    if loc.Some? {
      r := GetReferencesByLocation(lsp, loc.value);
    } else {
      r := None;
    }
  }

  /** `ReferencesFinder(workspace, lsp_workspace, position).context()`, over the indexes as they are when it starts. */
  method References(lsp: LSPWorkspace, ws: CompilerWorkspace, position: Position, rc: RangeTest) returns (r: Option<seq<ReferenceLocation>>)
    requires lsp.Valid()
    ensures var env := Env(ws, position, rc, ReferenceHooks(ws, lsp.Index()));
      var stack := if ws.source.Some? then PushedBy(rc, position, RootFrame(ws.source.value)) else [];
      var cs := if ws.source.Some? then Tracked(rc, position, ClassDeclaration, ws.source.value, "") else "";
      var cuf := if ws.source.Some? then Tracked(rc, position, FunctionDeclaration, ws.source.value, "") else "";
      r == Run(env, stack, cs, cuf).result
  {
    var env := Env(ws, position, rc, ReferenceHooks(ws, lsp.Index()));
    var builder := new SemanticContextBuilder(env);
    assert builder.env == env && builder.nodes == [] && builder.callingScope == "" && builder.currentUserFunction == "";
    r := builder.Context();
    if ws.source.Some? {
      assert [] + PushedBy(rc, position, RootFrame(ws.source.value)) == PushedBy(rc, position, RootFrame(ws.source.value));
    }
  }
}
