/**
 * The compiler collaborator as the language-server core sees it.
 *
 * Positions, ranges and source locations; the declarations the scope tree
 * hands out (variables, constants, module functions, user functions, program
 * parameters); the ANTLR parse tree as rule-tagged nodes that keep the
 * accessor tokens the core reads; the resolved AST the reference index and
 * the AST hover walk; the compiler workspace. The scope tree itself, the
 * range test `Range::contains` and `describe()` are not shown in the core's
 * source: they are given as function-valued fields (oracles), and every
 * `describe()` result is carried as a string inside the entity it describes.
 */
module CompilerModel {
  import opened Common

  /** A 1-based source position (`line_number`, `character_column`, `token_index`). */
  datatype Position = Position(line: nat, column: nat, tokenIndex: nat)

  datatype Range = Range(start: Position, end: Position)

  /** A range inside a named source file (`source_file_identifier->pathname`). */
  datatype SourceLocation = SourceLocation(pathname: string, range: Range)

  /** Position built from a line and a column only: its token index is the default, 0. */
  function At(line: nat, column: nat): (p: Position)
    ensures p.line == line && p.column == column && p.tokenIndex == 0
  {
    Position(line, column, 0)
  }

  /** The C++ `static_cast<unsigned short>` of a column sum. */
  function UShort(n: nat): (r: nat)
    ensures r < 65536
    ensures n < 65536 ==> r == n
  {
    n % 65536
  }

  // ---------------------------------------------------------------------
  // Declarations handed out by the scope tree

  datatype VariableScope = GlobalScope | LocalScope | OtherScope

  datatype Variable = Variable(name: string, scope: VariableScope, location: SourceLocation)

  /** A function parameter; `defaultDescription` is `describe()` of its default value. */
  datatype Param = Param(name: string, location: SourceLocation, defaultDescription: Option<string>)

  /** A `const` declaration; `expressionDescription` is `describe()` of its expression. */
  datatype ConstDecl = ConstDecl(identifier: string, location: SourceLocation, expressionDescription: string)

  datatype ModuleFunction = ModuleFunction(name: string, scope: string, parameters: seq<Param>, location: SourceLocation)

  datatype UserFunctionType = Standalone | Method | Constructor | Super | Expression

  datatype UserFunction = UserFunction(name: string, scope: string, kind: UserFunctionType, parameters: seq<Param>, location: SourceLocation)

  datatype ProgramParam = ProgramParam(name: string, location: SourceLocation)

  datatype Program = Program(name: string, parameters: seq<ProgramParam>, location: SourceLocation)

  /** `ScopeName`: no scope given, the global scope `::`, or a named scope. */
  datatype ScopeName = NoScope | GlobalName | Named(name: string)

  /** `ScopeTreeQuery { calling_scope, current_user_function, prefix_scope, prefix }`. */
  datatype ScopeTreeQuery = ScopeTreeQuery(callingScope: string, currentUserFunction: string, prefixScope: ScopeName, prefix: string)

  /** The compiler's scope tree lookups, which are not part of this model. */
  datatype ScopeTree = ScopeTree(
    findVariable: (string, Position) -> Option<Variable>,
    findConstant: string -> Option<ConstDecl>,
    findModuleFunction: ScopeTreeQuery -> Option<ModuleFunction>,
    findUserFunction: ScopeTreeQuery -> Option<UserFunction>,
    listConstants: ScopeTreeQuery -> seq<ConstDecl>,
    listVariables: (ScopeTreeQuery, Position) -> seq<Variable>,
    listUserFunctions: (ScopeTreeQuery, Position) -> seq<UserFunction>,
    listModuleFunctions: ScopeTreeQuery -> seq<ModuleFunction>,
    listScopes: ScopeTreeQuery -> seq<string>,
    listModules: ScopeTreeQuery -> seq<string>)

  /** The first parameter called `name`, searched in declaration order. */
  function FindParam(params: seq<Param>, name: string): (r: Option<Param>)
    ensures r.Some? ==> r.value in params && r.value.name == name
    ensures r.Some? ==> exists i :: 0 <= i < |params| && params[i] == r.value && forall j :: 0 <= j < i ==> params[j].name != name
    ensures r.None? ==> forall p :: p in params ==> p.name != name
  {
    if params == [] then None
    else if params[0].name == name then Some(params[0])
    else
      var r := FindParam(params[1..], name);
      if r.Some? then
        var i :| 0 <= i < |params| - 1 && params[1..][i] == r.value && forall j :: 0 <= j < i ==> params[1..][j].name != name;
        assert params[i + 1] == r.value;
        r
      else r
  }

  /** The first program parameter called `name`. */
  function FindProgramParam(params: seq<ProgramParam>, name: string): (r: Option<ProgramParam>)
    ensures r.Some? ==> r.value in params && r.value.name == name
    ensures r.None? ==> forall p :: p in params ==> p.name != name
  {
    if params == [] then None
    else if params[0].name == name then Some(params[0])
    else FindProgramParam(params[1..], name)
  }

  // ---------------------------------------------------------------------
  // Tokens and the parse tree

  datatype TokenKind = IDENTIFIER | COLONCOLON | LPAREN | RPAREN | COMMA | CLASS | ENDCLASS | STRING_LITERAL | AT | WS | EOF | OtherToken

  /** An ANTLR token: type, text, 1-based line, 0-based `charPositionInLine`, index in the stream. */
  datatype Token = Token(kind: TokenKind, text: string, line: nat, charPos: nat, tokenIndex: nat)

  datatype Rule =
    | CompilationUnit | ModuleUnit
    | VariableDeclaration | ConstantDeclaration
    | ModuleFunctionDeclaration | ModuleFunctionParameter
    | FunctionDeclaration | FunctionParameters | FunctionParameterList | FunctionParameter
    | FunctionExpression | FunctionReference
    | ForeachIterableExpression | ForeachStatement | EnumStatement | EnumListEntry
    | SwitchLabel | BasicForStatement
    | ProgramDeclaration | ProgramParameter
    | Primary | NavigationSuffix | MethodCallSuffix
    | FunctionCall | ScopedFunctionCall | StructInitializerExpression
    | IncludeDeclaration | UseDeclaration | StringIdentifier
    | ScopedIdentifier | ClassParameterList | ClassDeclaration
    | Binding | IndexBinding | SequenceBinding | UninitFunctionDeclaration
    | OtherRule

  /**
   * A parser rule context. `range` is `Range(*ctx)`; `identifiers` are the
   * IDENTIFIER terminal children in order (`IDENTIFIER()` is the first,
   * `identifierIsError` says whether that terminal is an error node);
   * `stringLiteral` and `at` are the STRING_LITERAL and AT terminals
   * (`atIsError` says whether the AT terminal is an error node);
   * `functionLabel`, `scopeLabel`, `identifierLabel` are the labelled tokens
   * `ctx->function`, `ctx->scope`, `ctx->identifier`; `kids` are the rule
   * children in order (terminal children are not kept).
   */
  datatype PNode = PNode(
    rule: Rule,
    range: Range,
    identifiers: seq<Token>,
    identifierIsError: bool,
    stringLiteral: Option<Token>,
    at: Option<Token>,
    atIsError: bool,
    functionLabel: Option<Token>,
    scopeLabel: Option<Token>,
    identifierLabel: Option<Token>,
    kids: seq<PNode>)
  {
    /** `ctx->IDENTIFIER()`: the first IDENTIFIER terminal, or null. */
    function Identifier(): (r: Option<Token>)
      ensures r.Some? <==> |identifiers| > 0
      ensures r.Some? ==> r.value == identifiers[0]
    {
      if |identifiers| > 0 then Some(identifiers[0]) else None
    }
  }

  /** `ctx->rule(0)`: the first rule child tagged `r`, or null. */
  function FirstChildOfRule(n: PNode, r: Rule): (c: Option<PNode>)
    ensures c.Some? ==> c.value in n.kids && c.value.rule == r
    ensures c.None? ==> forall k :: k in n.kids ==> k.rule != r
  {
    FirstOfRule(n.kids, r)
  }

  function FirstOfRule(kids: seq<PNode>, r: Rule): (c: Option<PNode>)
    ensures c.Some? ==> c.value in kids && c.value.rule == r
    ensures c.None? ==> forall k :: k in kids ==> k.rule != r
  {
    if kids == [] then None
    else if kids[0].rule == r then Some(kids[0])
    else FirstOfRule(kids[1..], r)
  }

  /**
   * A node reached by the tree walk, with its ancestors (innermost first,
   * ending with the root) and the child indices that lead to it from the root.
   */
  datatype Frame = Frame(node: PNode, ancestors: seq<PNode>, path: seq<nat>)

  /** The frame of the root of a parse tree. */
  function RootFrame(root: PNode): (f: Frame)
    ensures f.node == root && f.ancestors == [] && f.path == []
  {
    Frame(root, [], [])
  }

  /** The frame of child `i` of `f`'s node. */
  function ChildFrame(f: Frame, i: nat): (c: Frame)
    requires i < |f.node.kids|
    ensures c.node == f.node.kids[i] && c.ancestors == [f.node] + f.ancestors && c.path == f.path + [i]
  {
    Frame(f.node.kids[i], [f.node] + f.ancestors, f.path + [i])
  }

  /** `ctx->parent`: the innermost ancestor, or null at the root. */
  function Parent(f: Frame): (p: Option<PNode>)
    ensures p.Some? <==> |f.ancestors| > 0
  {
    if |f.ancestors| > 0 then Some(f.ancestors[0]) else None
  }

  /** `get_ancestor(node, depth)`: follow `parent` `depth` times; null once past the root. */
  function Ancestor(f: Frame, depth: nat): (a: Option<PNode>)
    ensures depth == 0 ==> a == Some(f.node)
    ensures 0 < depth <= |f.ancestors| ==> a == Some(f.ancestors[depth - 1])
    ensures depth > |f.ancestors| ==> a.None?
  {
    if depth == 0 then Some(f.node)
    else if depth <= |f.ancestors| then Some(f.ancestors[depth - 1])
    else None
  }

  /** The node reached from `n` by the child indices `path`, if there is one. */
  function NodeAt(n: PNode, path: seq<nat>): (r: Option<PNode>)
    decreases |path|
  {
    if path == [] then Some(n)
    else if path[0] < |n.kids| then NodeAt(n.kids[path[0]], path[1..])
    else None
  }

  // ---------------------------------------------------------------------
  // The resolved AST

  datatype ValueKind = FloatValue | IntegerValue | StringValue | UninitializedValue | OtherValue

  /** A function a call resolved to (`FunctionLink::user_function()` / `module_function_declaration()`). */
  datatype FunctionRef = FunctionRef(name: string, location: SourceLocation)

  datatype FunctionLink = FunctionLink(userFunction: Option<FunctionRef>, moduleFunction: Option<FunctionRef>)

  datatype AstKind =
    | UserFunctionNode(functionName: string, functionParameters: seq<Param>)
    | ModuleFunctionNode(moduleFunctionName: string, moduleFunctionParameters: seq<Param>)
    | FunctionCallNode(methodName: string, callParameters: Option<seq<Param>>, link: Option<FunctionLink>)
    | VarStatementNode(varName: string)
    | ConstDeclarationNode(constIdentifier: string, constExpressionDescription: string)
    | IdentifierNode(identifierName: string, variable: Option<Variable>)
    | MemberAccessNode(memberName: string)
    | FunctionParameterNode(parameterName: string)
    | ValueNode(valueKind: ValueKind, valueDescription: string)
    | MethodCallNode(methodCallName: string)
    | OtherNode

  /**
   * An AST node: its kind, its `source_location`, its children (a child slot
   * may be null) and, for a folded value, the node it was folded from
   * (`unoptimized_node`).
   */
  datatype AstNode = AstNode(kind: AstKind, location: SourceLocation, children: seq<Option<AstNode>>, unoptimized: Option<AstNode>)

  // ---------------------------------------------------------------------
  // The compiler workspace

  /** A semantic token the compiler reports for the editor: 1-based line and column, length, token type number. */
  datatype SemanticToken = SemanticToken(line: nat, column: nat, length: nat, tokenType: nat)

  /**
   * `CompilerWorkspace`: the parse tree of the source (null when the source
   * could not be read), the source's own pathname, the resolved AST of the
   * top-level statements, of the program and of each user function, the
   * program declaration, the referenced source files' pathnames, the class
   * locations, the lexer's token stream, the semantic tokens, the scope tree
   * and the constants table (`constants.find`).
   */
  datatype CompilerWorkspace = CompilerWorkspace(
    source: Option<PNode>,
    sourcePathname: string,
    topLevelStatements: AstNode,
    programNode: Option<AstNode>,
    userFunctionNodes: seq<AstNode>,
    program: Option<Program>,
    referencedPaths: seq<string>,
    classLocations: map<string, SourceLocation>,
    tokens: seq<Token>,
    semanticTokens: seq<SemanticToken>,
    scopeTree: ScopeTree,
    constants: string -> Option<ConstDecl>)

  /** The `Range::contains(Position)` test of the compiler, which is not part of this model. */
  type RangeTest = (Range, Position) -> bool

  /** `SourceLocation::contains(Position)`, likewise given. */
  type LocationTest = (SourceLocation, Position) -> bool
}
