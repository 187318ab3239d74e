/**
 * `HoverBuilder`: the stand-alone hover of the native server. It walks the
 * parse tree pushing every rule node whose location contains the cursor,
 * then examines only the innermost one: a shape whose identifier contains
 * the cursor renders a description from the scope tree; anything else ends
 * the search with no hover.
 *
 * This builder looks functions up by name alone; those two lookups are given
 * as `NameLookups`. Constants and variables use the scope tree's own lookups.
 */
module HoverBuilder {
  import opened Common
  import opened CompilerModel
  import opened ContextBuilder

  /** The name-only function lookups this builder uses (`find_module_function(name)`, `find_user_function(name)`). */
  datatype NameLookups = NameLookups(
    findModuleFunction: string -> Option<ModuleFunction>,
    findUserFunction: string -> Option<UserFunction>)

  // ---------------------------------------------------------------------
  // Rendering

  /** One parameter: its name, then " := " and the description of its default when it has one. */
  function ParamText(p: Param): (s: string)
    ensures StartsWith(s, p.name)
    ensures p.defaultDescription.None? <==> s == p.name
  {
    if p.defaultDescription.Some? then p.name + " := " + p.defaultDescription.value else p.name
  }

  function ParamTexts(params: seq<Param>): (r: seq<string>)
    ensures |r| == |params| && forall i :: 0 <= i < |params| ==> r[i] == ParamText(params[i])
  {
    if params == [] then [] else [ParamText(params[0])] + ParamTexts(params[1..])
  }

  /** `parameters_to_string`: each parameter's text, separated by ", ". */
  function ParametersText(params: seq<Param>): string
  {
    Join(ParamTexts(params), ", ")
  }

  function ProgramParamNames(params: seq<ProgramParam>): (r: seq<string>)
    ensures |r| == |params| && forall i :: 0 <= i < |params| ==> r[i] == params[i].name
  {
    if params == [] then [] else [params[0].name] + ProgramParamNames(params[1..])
  }

  /** `program_parameters_to_string`: the names alone, separated by ", ". */
  function ProgramParametersText(params: seq<ProgramParam>): string
  {
    Join(ProgramParamNames(params), ", ")
  }

  /** No parameters render as nothing; one parameter renders as its own text, with no separator. */
  lemma ParametersTextSmall(params: seq<Param>)
    ensures params == [] ==> ParametersText(params) == ""
    ensures |params| == 1 ==> ParametersText(params) == ParamText(params[0])
  {
  }

  /** One step of `parameters_to_string`: the separator unless first, then the parameter's text. */
  lemma AppendParam(params: seq<Param>, i: nat, joined: string, separated: string)
    requires i < |params|
    requires joined == Join(ParamTexts(params[..i]), ", ")
    requires separated == if i > 0 then joined + ", " else joined
    ensures separated + ParamText(params[i]) == Join(ParamTexts(params[..i + 1]), ", ")
  {
    assert params[..i + 1] == params[..i] + [params[i]];
    assert ParamTexts(params[..i + 1]) == ParamTexts(params[..i]) + [ParamText(params[i])];
    JoinSnoc(ParamTexts(params[..i]), ParamText(params[i]), ", ");
  }

  /** `parameters_to_string`: the loop with the `added` flag. */
  method ParametersToString(params: seq<Param>) returns (result: string)
    ensures result == ParametersText(params)
  {
    var added := false;
    result := "";
    var i := 0;
    while i < |params|
      invariant 0 <= i <= |params|
      invariant added <==> i > 0
      invariant result == Join(ParamTexts(params[..i]), ", ")
    {
      ghost var joined := result;
      if added {
        result := result + ", ";
      } else {
        added := true;
      }
      ghost var separated := result;
      result := result + params[i].name;
      if params[i].defaultDescription.Some? {
        result := result + " := ";
        result := result + params[i].defaultDescription.value;
      }
      assert result == separated + ParamText(params[i]);
      AppendParam(params, i, joined, separated);
      i := i + 1;
    }
    assert params[..i] == params;
  }

  /** `program_parameters_to_string`. */
  method ProgramParametersToString(params: seq<ProgramParam>) returns (result: string)
    ensures result == ProgramParametersText(params)
  {
    var added := false;
    result := "";
    var i := 0;
    while i < |params|
      invariant 0 <= i <= |params|
      invariant added <==> i > 0
      invariant result == Join(ProgramParamNames(params[..i]), ", ")
    {
      ghost var before := ProgramParamNames(params[..i]);
      assert ProgramParamNames(params[..i + 1]) == before + [params[i].name];
      JoinSnoc(before, params[i].name, ", ");
      if added {
        result := result + ", ";
      } else {
        added := true;
      }
      result := result + params[i].name;
      i := i + 1;
    }
    assert params[..i] == params;
  }

  function ConstantHover(c: ConstDecl): string
  {
    "(constant) " + c.identifier + " := " + c.expressionDescription
  }

  function VariableHover(v: Variable): string
  {
    "(variable) " + v.name
  }

  function ModuleFunctionHover(m: ModuleFunction): string
  {
    "(module function) " + m.name + "(" + ParametersText(m.parameters) + ")"
  }

  function UserFunctionHover(u: UserFunction): string
  {
    "(user function) " + u.name + "(" + ParametersText(u.parameters) + ")"
  }

  /** A parameter: " := default" is added when the enclosing function is found and its same-named parameter has a default. */
  function ParameterHover(name: string, enclosing: Option<seq<Param>>): string
  {
    var p := if enclosing.Some? then FindParam(enclosing.value, name) else None;
    "(parameter) " + name + (if p.Some? && p.value.defaultDescription.Some? then " := " + p.value.defaultDescription.value else "")
  }

  // ---------------------------------------------------------------------
  // The try_* lambdas and the examination of the innermost node

  function TryConstant(ws: CompilerWorkspace, name: string): (r: Option<string>)
    ensures r.Some? <==> ws.scopeTree.findConstant(name).Some?
    ensures r.Some? ==> "(constant) " <= r.value
  {
    match ws.scopeTree.findConstant(name)
    case Some(c) => Some(ConstantHover(c))
    case None => None
  }

  function TryVariable(ws: CompilerWorkspace, pos: Position, name: string): Option<string>
  {
    match ws.scopeTree.findVariable(name, pos)
    case Some(v) => Some(VariableHover(v))
    case None => None
  }

  function TryConstantOrVariable(ws: CompilerWorkspace, pos: Position, name: string): Option<string>
  {
    var c := TryConstant(ws, name);
    if c.Some? then c else TryVariable(ws, pos, name)
  }

  function TryModuleFunction(look: NameLookups, name: string): Option<string>
  {
    match look.findModuleFunction(name)
    case Some(m) => Some(ModuleFunctionHover(m))
    case None => None
  }

  function TryUserFunction(look: NameLookups, name: string): (r: Option<string>)
    ensures r.Some? <==> look.findUserFunction(name).Some?
    ensures r.Some? ==> "(user function) " <= r.value
  {
    match look.findUserFunction(name)
    case Some(u) => Some(UserFunctionHover(u))
    case None => None
  }

  function TryFunction(look: NameLookups, name: string): Option<string>
  {
    var m := TryModuleFunction(look, name);
    if m.Some? then m else TryUserFunction(look, name)
  }

  /** The parameters of the function declared by `a`, when `a` is such a declaration with a name the lookup finds. */
  function EnclosingParameters(a: Option<PNode>, rule: Rule, find: string -> Option<seq<Param>>): Option<seq<Param>>
  {
    if a.Some? && a.value.rule == rule && a.value.Identifier().Some? then find(a.value.Identifier().value.text) else None
  }

  function ModuleFunctionParams(look: NameLookups, name: string): Option<seq<Param>>
  {
    match look.findModuleFunction(name)
    case Some(m) => Some(m.parameters)
    case None => None
  }

  function UserFunctionParams(look: NameLookups, name: string): Option<seq<Param>>
  {
    match look.findUserFunction(name)
    case Some(u) => Some(u.parameters)
    case None => None
  }

  /** The hover of the innermost pushed node: a recognised shape whose IDENTIFIER contains the cursor, else nothing. */
  function HoverAt(ws: CompilerWorkspace, look: NameLookups, pos: Position, f: Frame): (r: Option<string>)
    ensures !ContainsTerminal(pos, f.node.Identifier()) ==> r.None?
    ensures (f.node.rule in {CompilationUnit, ModuleUnit, FunctionParameters, FunctionParameterList, FunctionExpression,
                             EnumStatement, IncludeDeclaration, UseDeclaration, StringIdentifier, ScopedFunctionCall,
                             ScopedIdentifier, ClassParameterList, ClassDeclaration, Binding, IndexBinding,
                             SequenceBinding, UninitFunctionDeclaration, OtherRule}) ==> r.None?
    ensures f.node.rule in {ModuleFunctionParameter, FunctionParameter} && ContainsTerminal(pos, f.node.Identifier()) ==>
      r.Some? && "(parameter) " + f.node.Identifier().value.text <= r.value
  {
    var n := f.node;
    var id := n.Identifier();
    if !ContainsTerminal(pos, id) then None
    else
      var name := id.value.text;
      match n.rule
      case VariableDeclaration => TryVariable(ws, pos, name)
      case ConstantDeclaration => TryConstant(ws, name)
      case ModuleFunctionDeclaration => TryModuleFunction(look, name)
      case FunctionDeclaration => TryUserFunction(look, name)
      case ModuleFunctionParameter =>
        Some(ParameterHover(name, EnclosingParameters(Ancestor(f, 2), ModuleFunctionDeclaration, n => ModuleFunctionParams(look, n))))
      case ForeachIterableExpression => TryConstantOrVariable(ws, pos, name)
      case ForeachStatement => TryVariable(ws, pos, name)
      case EnumListEntry => TryConstant(ws, name)
      case SwitchLabel => TryConstantOrVariable(ws, pos, name)
      case BasicForStatement => TryVariable(ws, pos, name)
      case ProgramDeclaration =>
        if ws.program.Some? then Some("(program) " + name + "(" + ProgramParametersText(ws.program.value.parameters) + ")") else None
      case ProgramParameter => Some("(program parameter) " + name)
      case FunctionParameter =>
        Some(ParameterHover(name, EnclosingParameters(Ancestor(f, 3), FunctionDeclaration, n => UserFunctionParams(look, n))))
      case FunctionReference => TryUserFunction(look, name)
      case Primary => TryConstantOrVariable(ws, pos, name)
      case NavigationSuffix => Some("(member) " + name)
      case MethodCallSuffix => Some("(method) " + name)
      case FunctionCall => TryFunction(look, name)
      case StructInitializerExpression => Some("(member) " + name)
      case _ => None
  }

  // ---------------------------------------------------------------------
  // Properties of the rendering

  /** A call hovers as the module function when there is one, else as the user function. */
  lemma CallPrefersModuleFunction(ws: CompilerWorkspace, look: NameLookups, pos: Position, f: Frame)
    requires f.node.rule == FunctionCall && ContainsTerminal(pos, f.node.Identifier())
    ensures var name := f.node.Identifier().value.text;
      match look.findModuleFunction(name)
      case Some(m) => HoverAt(ws, look, pos, f) == Some("(module function) " + m.name + "(" + ParametersText(m.parameters) + ")")
      case None =>
        match look.findUserFunction(name)
        case Some(u) => HoverAt(ws, look, pos, f) == Some("(user function) " + u.name + "(" + ParametersText(u.parameters) + ")")
        case None => HoverAt(ws, look, pos, f).None?
  {
  }

  /**
   * A parameter always hovers as "(parameter) <name>"; the default is
   * appended exactly when the enclosing function is found and has a
   * same-named parameter with a default.
   */
  lemma ParameterHoverDefault(name: string, enclosing: Option<seq<Param>>)
    ensures StartsWith(ParameterHover(name, enclosing), "(parameter) " + name)
    ensures ParameterHover(name, enclosing) != "(parameter) " + name <==>
      (enclosing.Some? && FindParam(enclosing.value, name).Some? && FindParam(enclosing.value, name).value.defaultDescription.Some?)
  {
    var s := ParameterHover(name, enclosing);
    assert s[..|"(parameter) " + name|] == "(parameter) " + name;
  }

  /** A constant shadows a variable of the same name. */
  lemma ConstantBeforeVariable(ws: CompilerWorkspace, pos: Position, name: string)
    ensures ws.scopeTree.findConstant(name).Some? ==>
      TryConstantOrVariable(ws, pos, name) == Some("(constant) " + ws.scopeTree.findConstant(name).value.identifier + " := " +
        ws.scopeTree.findConstant(name).value.expressionDescription)
    ensures ws.scopeTree.findConstant(name).None? ==> TryConstantOrVariable(ws, pos, name) == TryVariable(ws, pos, name)
  {
  }

  /** Members and methods are named without any lookup. */
  lemma MemberAndMethodNeedNoLookup(ws: CompilerWorkspace, look: NameLookups, other: NameLookups, pos: Position, f: Frame)
    requires f.node.rule in {NavigationSuffix, MethodCallSuffix, StructInitializerExpression}
    requires ContainsTerminal(pos, f.node.Identifier())
    ensures HoverAt(ws, look, pos, f) == HoverAt(ws, other, pos, f)
    ensures HoverAt(ws, look, pos, f) == Some((if f.node.rule == MethodCallSuffix then "(method) " else "(member) ") + f.node.Identifier().value.text)
  {
  }

  // ---------------------------------------------------------------------
  // The builder

  class HoverBuilder {
    const ws: CompilerWorkspace
    const position: Position
    const lookups: NameLookups
    /** `SourceLocation(front file, *ctx).contains(position)`, as a test on the context's range. */
    const rangeContains: RangeTest
    var nodes: seq<Frame>

    /**
     * The builder tests a node's range against the cursor inside the
     * workspace's first referenced file. Any workspace is accepted; the
     * first file is read only when a child is visited, which is where
     * `VisitChildren` asks for it.
     */
    constructor (ws: CompilerWorkspace, position: Position, lookups: NameLookups, locationContains: LocationTest)
      ensures this.ws == ws && this.position == position && this.lookups == lookups && nodes == []
      ensures |ws.referencedPaths| > 0 ==>
        forall r, p :: rangeContains(r, p) == locationContains(SourceLocation(ws.referencedPaths[0], r), p)
    {
      this.ws := ws;
      this.position := position;
      this.lookups := lookups;
      var paths := ws.referencedPaths;
      rangeContains := (r: Range, p: Position) => |paths| > 0 && locationContains(SourceLocation(paths[0], r), p);
      nodes := [];
    }

    /** `visitChildren`, which every node's `accept` reaches: push each containing rule child, visit every child. */
    method VisitChildren(f: Frame)
      requires |f.node.kids| > 0 ==> |ws.referencedPaths| > 0
      modifies this`nodes
      decreases f.node
      ensures nodes == old(nodes) + PushedBy(rangeContains, position, f)
    {
      var i := 0;
      while i < |f.node.kids|
        invariant 0 <= i <= |f.node.kids|
        invariant nodes == old(nodes) + PushedKids(rangeContains, position, f, i)
      {
        var c := ChildFrame(f, i);
        if rangeContains(c.node.range, position) {
          nodes := nodes + [c];
        }
        VisitChildren(c);
        i := i + 1;
      }
    }

    /** `hover()`: walk the source, then examine the innermost pushed node only. */
    method Hover() returns (r: Option<string>)
      requires ws.source.Some? && |ws.source.value.kids| > 0 ==> |ws.referencedPaths| > 0
      modifies this`nodes
      ensures var stack := if ws.source.Some? then old(nodes) + PushedBy(rangeContains, position, RootFrame(ws.source.value)) else old(nodes);
        (stack == [] ==> r.None? && nodes == []) &&
        (stack != [] ==> r == HoverAt(ws, lookups, position, stack[|stack| - 1]) && nodes == stack[..|stack| - 1])
    {
      if ws.source.Some? {
        VisitChildren(RootFrame(ws.source.value));
      }
      // The source's `while (!nodes.empty())` ends its first iteration with a
      // return or a break, so at most one node is popped.
      if nodes != [] {
        var f := nodes[|nodes| - 1];
        nodes := nodes[..|nodes| - 1];
        r := HoverAt(ws, lookups, position, f);
      } else {
        r := None;
      }
    }
  }
}
